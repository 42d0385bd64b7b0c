/** The command-line parser: a scan with one token of lookahead over a mutable table of
    arguments, and what the language it accepts and the values it stores amount to. */
module CmdlineParser {
  import opened Records

  datatype Argument = Argument(longName: string, shortName: string, description: string,
                               required: bool, found: bool, value: string)
  {
    predicate Named(name: string) {
      name == longName || name == shortName
    }
  }

  datatype ParseError =
    | MissingSeparator
    | ValueRequired(token: string)
    | UnknownArgument(token: string)
    | RequiredMissing(longName: string)

  datatype ParseResult = Accepted | Rejected(error: ParseError)

  type Table = seq<Argument>

  /** The token could be a flag: its first byte is a dash. The empty token's first byte is NUL. */
  predicate Dashed(token: string) {
    token != [] && token[0] == '-'
  }

  /** The first argument called name, or |t|. */
  function Find(t: Table, name: string): (k: nat)
    ensures k <= |t|
    ensures k < |t| ==> t[k].Named(name)
    ensures forall j | 0 <= j < k :: !t[j].Named(name)
  {
    if t == [] || t[0].Named(name) then 0 else 1 + Find(t[1..], name)
  }

  predicate Known(t: Table, name: string) {
    Find(t, name) < |t|
  }

  /** The tokens after the separator, scanned from the front. */
  function Scan(t: Table, tokens: seq<string>): (Table, ParseResult)
    decreases |tokens|
  {
    if tokens == [] then (t, Accepted)
    else
      var k := Find(t, tokens[0]);
      if k == |t| then (t, Rejected(UnknownArgument(tokens[0])))
      else
        var t' := t[k := t[k].(found := true)];
        if |tokens| > 1 && !Dashed(tokens[1]) then
          Scan(t'[k := t'[k].(value := tokens[1])], tokens[2..])
        else if t[k].required && t[k].value == "" then (t', Rejected(ValueRequired(tokens[0])))
        else Scan(t', tokens[1..])
  }

  /** The first index from 'from' on that holds the separator, or |argv|. */
  function Separator(argv: seq<string>, from: nat): (k: nat)
    requires from <= |argv|
    ensures from <= k <= |argv|
    ensures k < |argv| ==> argv[k] == "--"
    ensures forall j | from <= j < k :: argv[j] != "--"
    decreases |argv| - from
  {
    if from == |argv| || argv[from] == "--" then from else Separator(argv, from + 1)
  }

  /** The application's own tokens, unless arguments were given without a separator. */
  function Tail(argv: seq<string>): Option<seq<string>> {
    if |argv| <= 1 then Some([])
    else
      var k := Separator(argv, 1);
      if k == |argv| then None else Some(argv[k + 1..])
  }

  /** The first required argument that no token named, or |t|. */
  function FirstMissing(t: Table): (k: nat)
    ensures k <= |t|
    ensures k < |t| ==> t[k].required && !t[k].found
    ensures forall j | 0 <= j < k :: !(t[j].required && !t[j].found)
  {
    if t == [] || (t[0].required && !t[0].found) then 0 else 1 + FirstMissing(t[1..])
  }

  function Checked(t: Table): ParseResult {
    var k := FirstMissing(t);
    if k < |t| then Rejected(RequiredMissing(t[k].longName)) else Accepted
  }

  function Parsed(t: Table, argv: seq<string>): (Table, ParseResult) {
    var tail := Tail(argv);
    if tail.None? then (t, Rejected(MissingSeparator))
    else
      var (t', r) := Scan(t, tail.value);
      (t', if r.Rejected? then r else Checked(t'))
  }

  function Get(t: Table, name: string): string {
    var k := Find(t, name);
    if k < |t| then t[k].value else ""
  }

  predicate Truth(value: string) {
    value in ["true", "1", "yes", "-h", "--help"]
  }

  class CmdlineParser {
    var arguments: seq<Argument>

    constructor ()
      ensures arguments == []
    {
      arguments := [];
    }

    method AddArgument(longName: string, shortName: string, description: string, required: bool, value: string)
      modifies this
      ensures arguments == old(arguments) + [Argument(longName, shortName, description, required, false, value)]
    {
      arguments := arguments + [Argument(longName, shortName, description, required, false, value)];
    }

    /** Looks for the separator from the second word on. */
    method FindSeparator(argv: seq<string>) returns (start: nat, found: bool)
      ensures found <==> |argv| > 1 && Separator(argv, 1) < |argv|
      ensures start == if found then Separator(argv, 1) + 1 else |argv|
    {
      var i := 1;
      while i < |argv|
        invariant 1 <= i && (|argv| > 0 ==> i <= |argv|)
        invariant forall j | 1 <= j < i && j < |argv| :: argv[j] != "--"
      {
        if argv[i] == "--" {
          return i + 1, true;
        }
        i := i + 1;
      }
      return |argv|, false;
    }

    /** Processes the words from start on. */
    method ScanTokens(argv: seq<string>, start: nat) returns (result: ParseResult)
      requires start <= |argv|
      modifies this
      ensures (arguments, result) == Scan(old(arguments), argv[start..])
    {
      hide Find;
      var i := start;
      while i < |argv|
        invariant start <= i <= |argv|
        invariant Scan(arguments, argv[i..]) == Scan(old(arguments), argv[start..])
      {
        var token := argv[i];
        var k := FindArgument(token);
        if k == |arguments| {
          return Rejected(UnknownArgument(token));
        }
        assert argv[i..][1..] == argv[i + 1..];
        arguments := arguments[k := arguments[k].(found := true)];
        if i + 1 < |argv| && !Dashed(argv[i + 1]) {
          assert argv[i..][2..] == argv[i + 2..];
          i := i + 1;
          arguments := arguments[k := arguments[k].(value := argv[i])];
        } else if arguments[k].required && arguments[k].value == "" {
          return Rejected(ValueRequired(token));
        }
        i := i + 1;
      }
      return Accepted;
    }

    /** Every required argument was named. */
    method CheckRequired() returns (result: ParseResult)
      ensures result == Checked(arguments)
    {
      for j := 0 to |arguments|
        invariant forall m | 0 <= m < j :: !(arguments[m].required && !arguments[m].found)
      {
        if arguments[j].required && !arguments[j].found {
          return Rejected(RequiredMissing(arguments[j].longName));
        }
      }
      return Accepted;
    }

    method Parse(argv: seq<string>) returns (result: ParseResult)
      modifies this
      ensures (arguments, result) == Parsed(old(arguments), argv)
    {
      var start, separatorFound := FindSeparator(argv);
      if !separatorFound && |argv| > 1 {
        return Rejected(MissingSeparator);
      }
      assert argv[|argv|..] == [];
      assert Tail(argv) == Some(argv[start..]);
      hide Tail, Scan;
      result := ScanTokens(argv, start);
      if result.Accepted? {
        result := CheckRequired();
      }
    }

    method FindArgument(name: string) returns (k: nat)
      ensures k == Find(arguments, name)
    {
      k := 0;
      while k < |arguments| && !arguments[k].Named(name)
        invariant k <= |arguments|
        invariant forall j | 0 <= j < k :: !arguments[j].Named(name)
      {
        k := k + 1;
      }
    }

    method GetString(name: string) returns (value: string)
      ensures value == Get(arguments, name)
    {
      for k := 0 to |arguments|
        invariant forall j | 0 <= j < k :: !arguments[j].Named(name)
      {
        if arguments[k].Named(name) {
          return arguments[k].value;
        }
      }
      return "";
    }

    method GetBool(name: string) returns (value: bool)
      ensures value <==> Truth(Get(arguments, name))
    {
      var s := GetString(name);
      return s == "true" || s == "1" || s == "yes" || s == "-h" || s == "--help";
    }
  }

  // ----- What a scan keeps

  /** Same arguments up to what was found and stored. */
  ghost predicate SameArguments(t: Table, t': Table) {
    |t'| == |t| && forall j | 0 <= j < |t| :: t'[j] == t[j].(found := t'[j].found, value := t'[j].value)
  }

  lemma {:induction false} SameFind(t: Table, t': Table, name: string)
    requires SameArguments(t, t')
    ensures Find(t', name) == Find(t, name)
  {
    if Find(t', name) < |t| {
      assert t[Find(t', name)].Named(name);
    }
    if Find(t, name) < |t| {
      assert t'[Find(t, name)].Named(name);
    }
  }

  lemma {:induction false} ScanKeeps(t: Table, tokens: seq<string>)
    ensures var t' := Scan(t, tokens).0;
            && SameArguments(t, t')
            && forall j | 0 <= j < |t| :: t'[j].value == t[j].value || (!Dashed(t'[j].value) && t'[j].value in tokens)
    decreases |tokens|
  {
    if tokens != [] && Known(t, tokens[0]) {
      var k := Find(t, tokens[0]);
      var t' := t[k := t[k].(found := true)];
      if |tokens| > 1 && !Dashed(tokens[1]) {
        ScanKeeps(t'[k := t'[k].(value := tokens[1])], tokens[2..]);
      } else {
        ScanKeeps(t', tokens[1..]);
      }
    }
  }

  // ----- Composition

  /** Scanning accepted tokens followed by tokens that begin with a dash is scanning the one
      and then the other: the lookahead never reaches across. */
  lemma {:induction false} ScanComposes(t: Table, first: seq<string>, second: seq<string>)
    requires Scan(t, first).1.Accepted? && (second != [] ==> Dashed(second[0]))
    ensures Scan(t, first + second) == Scan(Scan(t, first).0, second)
    decreases |first|
  {
    hide Find, Dashed;
    if first == [] {
      assert first + second == second;
    } else {
      var k := Find(t, first[0]);
      var t' := t[k := t[k].(found := true)];
      if |first| > 1 && !Dashed(first[1]) {
        ScanComposes(t'[k := t'[k].(value := first[1])], first[2..], second);
        assert (first + second)[2..] == first[2..] + second;
      } else {
        ScanComposes(t', first[1..], second);
        assert (first + second)[1..] == first[1..] + second;
      }
    }
  }

  // ----- The accepted language

  /** No argument is required and every name begins with a dash, as in the table of the
      configuration manager. */
  ghost predicate Plain(t: Table) {
    forall j | 0 <= j < |t| :: !t[j].required && Dashed(t[j].longName) && Dashed(t[j].shortName)
  }

  lemma {:induction false} KnownIsDashed(t: Table, name: string)
    requires Plain(t) && Known(t, name)
    ensures Dashed(name)
  {
    assert t[Find(t, name)].Named(name);
  }

  /** A dashed token must be a known name; any other token, the empty one included, must
      stand right behind a known name. */
  predicate FitsAt(t: Table, tokens: seq<string>, i: nat)
    requires i < |tokens|
  {
    if Dashed(tokens[i]) then Known(t, tokens[i]) else i > 0 && Known(t, tokens[i - 1])
  }

  ghost predicate Local(t: Table, tokens: seq<string>) {
    forall i: nat | i < |tokens| :: FitsAt(t, tokens, i)
  }

  lemma {:induction false} SameLocal(t: Table, t': Table, tokens: seq<string>)
    requires SameArguments(t, t')
    ensures Local(t', tokens) <==> Local(t, tokens)
  {
    forall i: nat | i < |tokens|
      ensures FitsAt(t', tokens, i) <==> FitsAt(t, tokens, i)
    {
      SameFind(t, t', tokens[i]);
      SameFind(t, t', tokens[if i > 0 then i - 1 else 0]);
    }
  }

  /** A known name, with its value if it takes one, can be cut off the front. */
  lemma {:induction false} LocalRest(t: Table, tokens: seq<string>, n: nat)
    requires Plain(t) && 1 <= n <= 2 && n <= |tokens|
    requires Known(t, tokens[0])
    requires n == 2 <==> |tokens| > 1 && !Dashed(tokens[1])
    ensures Local(t, tokens) <==> Local(t, tokens[n..])
  {
    KnownIsDashed(t, tokens[0]);
    assert FitsAt(t, tokens, 0) && (n == 2 ==> FitsAt(t, tokens, 1) && !Known(t, tokens[1])) by {
      if n == 2 && Known(t, tokens[1]) {
        KnownIsDashed(t, tokens[1]);
      }
    }
    var rest := tokens[n..];
    forall i: nat | i < |rest|
      ensures FitsAt(t, rest, i) <==> FitsAt(t, tokens, i + n)
    {
      assert rest[i] == tokens[i + n];
      assert i > 0 ==> rest[i - 1] == tokens[i + n - 1];
    }
    if Local(t, rest) {
      forall i: nat | i < |tokens|
        ensures FitsAt(t, tokens, i)
      {
        if i >= n {
          assert FitsAt(t, rest, i - n);
        }
      }
    }
  }

  lemma {:induction false} ScanAcceptsLocal(t: Table, tokens: seq<string>)
    requires Plain(t)
    ensures Scan(t, tokens).1.Accepted? <==> Local(t, tokens)
    decreases |tokens|
  {
    if tokens != [] {
      if !Known(t, tokens[0]) {
        assert !FitsAt(t, tokens, 0);
      } else {
        var k := Find(t, tokens[0]);
        var t' := t[k := t[k].(found := true)];
        if |tokens| > 1 && !Dashed(tokens[1]) {
          var t'' := t'[k := t'[k].(value := tokens[1])];
          ScanAcceptsLocal(t'', tokens[2..]);
          SameLocal(t, t'', tokens[2..]);
          LocalRest(t, tokens, 2);
        } else {
          ScanAcceptsLocal(t', tokens[1..]);
          SameLocal(t, t', tokens[1..]);
          LocalRest(t, tokens, 1);
        }
      }
    }
  }

  /** A command line is accepted exactly when it has no arguments at all, or has a separator
      and what follows the first one is local; the values stored before play no part. */
  lemma {:induction false} AcceptedLanguage(t: Table, argv: seq<string>)
    requires Plain(t)
    ensures Parsed(t, argv).1.Accepted? <==>
            || |argv| <= 1
            || exists k :: && 1 <= k < |argv| && argv[k] == "--" && (forall j | 1 <= j < k :: argv[j] != "--")
                           && Local(t, argv[k + 1..])
  {
    var tail := Tail(argv);
    if tail.Some? {
      ScanAcceptsLocal(t, tail.value);
      ScanKeeps(t, tail.value);
      assert Checked(Scan(t, tail.value).0).Accepted?;
    }
    if |argv| > 1 {
      var k := Separator(argv, 1);
      if k < |argv| {
        assert tail == Some(argv[k + 1..]);
      }
    }
  }

  // ----- Rendering and parsing back

  datatype Item = Item(name: string, value: Option<string>)

  function RenderItem(item: Item): seq<string> {
    [item.name] + match item.value
                  case None => []
                  case Some(v) => [v]
  }

  function Render(items: seq<Item>): seq<string> {
    if items == [] then [] else Render(items[..|items| - 1]) + RenderItem(items[|items| - 1])
  }

  ghost predicate Renderable(t: Table, items: seq<Item>) {
    forall i | 0 <= i < |items| :: Known(t, items[i].name) && (items[i].value.Some? ==> !Dashed(items[i].value.value))
  }

  /** The last value given for argument k, or the one it had. */
  function LastValue(t: Table, items: seq<Item>, k: nat): string
    requires k < |t|
  {
    if items == [] then t[k].value
    else
      var item := items[|items| - 1];
      if Find(t, item.name) == k && item.value.Some? then item.value.value
      else LastValue(t, items[..|items| - 1], k)
  }

  /** The table with one item stored. */
  function Stored(t: Table, item: Item): Table {
    var k := Find(t, item.name);
    if k == |t| then t
    else t[k := t[k].(found := true, value := if item.value.Some? then item.value.value else t[k].value)]
  }

  function StoredAll(t: Table, items: seq<Item>): Table {
    if items == [] then t else Stored(StoredAll(t, items[..|items| - 1]), items[|items| - 1])
  }

  lemma {:induction false} StoredAllMeaning(t: Table, items: seq<Item>)
    ensures SameArguments(t, StoredAll(t, items))
    ensures forall k: nat | k < |t| :: StoredAll(t, items)[k].value == LastValue(t, items, k)
  {
    if items != [] {
      StoredAllMeaning(t, items[..|items| - 1]);
      SameFind(t, StoredAll(t, items[..|items| - 1]), items[|items| - 1].name);
    }
  }

  lemma {:induction false} ScanItem(t: Table, item: Item)
    requires Plain(t) && Known(t, item.name) && (item.value.Some? ==> !Dashed(item.value.value))
    ensures Scan(t, RenderItem(item)) == (Stored(t, item), Accepted)
  {
    var tokens := RenderItem(item);
    if item.value.Some? {
      assert tokens[2..] == [];
      var k := Find(t, item.name);
      var t' := t[k := t[k].(found := true)];
      assert t'[k := t'[k].(value := tokens[1])] == Stored(t, item);
    } else {
      assert tokens[1..] == [];
    }
  }

  /** Scanning a rendered list accepts it and stores its items one by one. */
  lemma {:induction false} ScanRendered(t: Table, items: seq<Item>)
    requires Plain(t) && Renderable(t, items)
    ensures Scan(t, Render(items)) == (StoredAll(t, items), Accepted)
  {
    if items != [] {
      var n := |items| - 1;
      var front, item := items[..n], items[n];
      assert Renderable(t, front);
      ScanRendered(t, front);
      StoredAllMeaning(t, front);
      SameFind(t, StoredAll(t, front), item.name);
      KnownIsDashed(t, item.name);
      ScanItem(StoredAll(t, front), item);
      ScanComposes(t, Render(front), RenderItem(item));
    }
  }

  lemma {:induction false} RenderFront(item: Item, items: seq<Item>)
    ensures Render([item] + items) == RenderItem(item) + Render(items)
  {
    hide RenderItem;
    if items == [] {
      assert [item] + items == [item] && [item][..0] == [];
    } else {
      var n := |items| - 1;
      RenderFront(item, items[..n]);
      var all := [item] + items;
      assert all[..n + 1] == [item] + items[..n] && all[n + 1] == items[n];
      assert Render(all) == Render(all[..n + 1]) + RenderItem(items[n]);
    }
  }

  lemma {:induction false} LocalIsRendered(t: Table, tokens: seq<string>) returns (items: seq<Item>)
    requires Plain(t) && Local(t, tokens)
    ensures Renderable(t, items) && Render(items) == tokens
    decreases |tokens|
  {
    if tokens == [] {
      return [];
    }
    assert FitsAt(t, tokens, 0);
    var takesValue := |tokens| > 1 && !Dashed(tokens[1]);
    var n := if takesValue then 2 else 1;
    var item := Item(tokens[0], if takesValue then Some(tokens[1]) else None);
    LocalRest(t, tokens, n);
    var rest := LocalIsRendered(t, tokens[n..]);
    RenderFront(item, rest);
    assert tokens == RenderItem(item) + tokens[n..];
    items := [item] + rest;
  }

  /** The accepted tails are exactly the renderings of lists of known flags with optional
      values that do not begin with a dash. */
  lemma {:induction false} AcceptedIsRendered(t: Table, tokens: seq<string>)
    requires Plain(t)
    ensures Scan(t, tokens).1.Accepted? <==> exists items :: Renderable(t, items) && Render(items) == tokens
  {
    ScanAcceptsLocal(t, tokens);
    if Local(t, tokens) {
      var items := LocalIsRendered(t, tokens);
    }
    if items :| Renderable(t, items) && Render(items) == tokens {
      ScanRendered(t, items);
    }
  }

  /** Any EAL prefix without a separator, then the separator, then a rendered list: the line
      is accepted and every name, long or short, reads the last value given for it. */
  lemma {:induction false} RoundTrip(t: Table, program: string, eal: seq<string>, items: seq<Item>, name: string)
    requires Plain(t) && Renderable(t, items) && "--" !in eal
    requires Known(t, name)
    ensures var (t', r) := Parsed(t, [program] + eal + ["--"] + Render(items));
            r == Accepted && Get(t', name) == LastValue(t, items, Find(t, name))
  {
    var argv := [program] + eal + ["--"] + Render(items);
    var at := 1 + |eal|;
    assert argv[at] == "--";
    forall j | 1 <= j < at
      ensures argv[j] != "--"
    {
      assert argv[j] == eal[j - 1];
    }
    assert Separator(argv, 1) == at;
    assert argv[at + 1..] == Render(items);
    ScanRendered(t, items);
    StoredAllMeaning(t, items);
    var t' := StoredAll(t, items);
    assert Checked(t') == Accepted;
    SameFind(t, t', name);
  }

  lemma {:induction false} StoredAllAppends(t: Table, a: seq<Item>, b: seq<Item>)
    ensures StoredAll(t, a + b) == StoredAll(StoredAll(t, a), b)
  {
    if b == [] {
      assert a + b == a;
    } else {
      StoredAllAppends(t, a, b[..|b| - 1]);
      assert (a + b)[..|a + b| - 1] == a + b[..|b| - 1];
    }
  }

  lemma {:induction false} StoredOne(t: Table, x: Item)
    ensures StoredAll(t, [x]) == Stored(t, x)
  {
    hide Stored;
    assert [x][..0] == [];
    assert StoredAll(t, [x][..0]) == t;
  }

  lemma {:induction false} StoredPair(t: Table, x: Item, y: Item)
    requires Find(t, x.name) != Find(t, y.name)
    ensures StoredAll(t, [x, y]) == StoredAll(t, [y, x])
  {
    hide Find;
    assert [x, y][..1] == [x] && [y, x][..1] == [y];
    SameFind(t, Stored(t, x), y.name);
    SameFind(t, Stored(t, y), x.name);
    StoredOne(t, x);
    StoredOne(t, y);
    assert Stored(Stored(t, x), y) == Stored(Stored(t, y), x);
  }

  /** Neighbouring items for different arguments can be swapped without changing the table. */
  lemma {:induction false} ItemsCommute(t: Table, a: seq<Item>, x: Item, y: Item, b: seq<Item>)
    requires Plain(t) && Renderable(t, a + [x, y] + b)
    requires Find(t, x.name) != Find(t, y.name)
    ensures Scan(t, Render(a + [x, y] + b)) == Scan(t, Render(a + [y, x] + b))
  {
    var left, right := a + [x, y] + b, a + [y, x] + b;
    assert Renderable(t, right) by {
      forall i | 0 <= i < |right|
        ensures Known(t, right[i].name) && (right[i].value.Some? ==> !Dashed(right[i].value.value))
      {
        assert right[i] == left[if i == |a| then i + 1 else if i == |a| + 1 then i - 1 else i];
      }
    }
    ScanRendered(t, left);
    ScanRendered(t, right);
    StoredAllAppends(t, a + [x, y], b);
    StoredAllAppends(t, a + [y, x], b);
    StoredAllAppends(t, a, [x, y]);
    StoredAllAppends(t, a, [y, x]);
    StoredAllMeaning(t, a);
    SameFind(t, StoredAll(t, a), x.name);
    SameFind(t, StoredAll(t, a), y.name);
    StoredPair(StoredAll(t, a), x, y);
  }

  // ----- Stored values over any number of parse calls

  function ParsedAll(t: Table, lines: seq<seq<string>>): Table {
    if lines == [] then t else Parsed(ParsedAll(t, lines[..|lines| - 1]), lines[|lines| - 1]).0
  }

  /** Accepted or rejected, calls of parse leave in every argument its first value or a token
      that does not begin with a dash. */
  lemma {:induction false} StoredValues(t: Table, lines: seq<seq<string>>)
    ensures SameArguments(t, ParsedAll(t, lines))
    ensures forall j | 0 <= j < |t| ::
              ParsedAll(t, lines)[j].value == t[j].value || !Dashed(ParsedAll(t, lines)[j].value)
  {
    if lines != [] {
      var front := ParsedAll(t, lines[..|lines| - 1]);
      StoredValues(t, lines[..|lines| - 1]);
      var tail := Tail(lines[|lines| - 1]);
      if tail.Some? {
        ScanKeeps(front, tail.value);
      }
    }
  }
}
