/** How parsing any line ends, for any table whose names begin with a dash, with required
    arguments: which of its four errors it reports, or that it accepts. */
module ParseOutcome {
  import opened Records
  import opened CmdlineParser

  ghost predicate DashNames(t: Table) {
    forall j | 0 <= j < |t| :: Dashed(t[j].longName) && Dashed(t[j].shortName)
  }

  lemma {:induction false} NameIsDashed(t: Table, name: string)
    requires DashNames(t) && Known(t, name)
    ensures Dashed(name)
  {
    assert t[Find(t, name)].Named(name);
  }

  /** Item i is a required argument given without a value while it has none yet. */
  predicate Bare(t: Table, items: seq<Item>, i: nat)
    requires i < |items|
  {
    var k := Find(t, items[i].name);
    k < |t| && t[k].required && items[i].value.None? && LastValue(t, items[..i], k) == ""
  }

  ghost predicate FirstBare(t: Table, items: seq<Item>, i: nat) {
    i < |items| && Bare(t, items, i) && forall j: nat | j < i :: !Bare(t, items, j)
  }

  ghost predicate NoneBare(t: Table, items: seq<Item>) {
    forall i: nat | i < |items| :: !Bare(t, items, i)
  }

  /** What follows the items cannot be taken for the value of the last one. */
  predicate Apart(items: seq<Item>, rest: seq<string>) {
    rest == [] || Dashed(rest[0]) || items == [] || items[|items| - 1].value.Some?
  }

  // ----- Items from the front

  lemma {:induction false} StoredFront(t: Table, item: Item, items: seq<Item>)
    ensures StoredAll(t, [item] + items) == StoredAll(Stored(t, item), items)
  {
    StoredAllAppends(t, [item], items);
    StoredOne(t, item);
  }

  lemma {:induction false} LastValueFront(t: Table, item: Item, items: seq<Item>, k: nat)
    requires k < |t| && Known(t, item.name)
    ensures |Stored(t, item)| == |t|
    ensures LastValue(Stored(t, item), items, k) == LastValue(t, [item] + items, k)
  {
    hide StoredAll, LastValue, Find, Stored;
    StoredOne(t, item);
    StoredAllMeaning(t, [item]);
    StoredAllMeaning(Stored(t, item), items);
    StoredAllMeaning(t, [item] + items);
    StoredFront(t, item, items);
  }

  lemma {:induction false} StoredKeeps(t: Table, item: Item)
    ensures SameArguments(t, Stored(t, item))
  {
    StoredOne(t, item);
    StoredAllMeaning(t, [item]);
  }

  lemma {:induction false} SameTable(t: Table, t': Table)
    requires SameArguments(t, t')
    ensures DashNames(t) <==> DashNames(t')
    ensures forall j | 0 <= j < |t| :: t'[j].required == t[j].required
  {
  }

  lemma {:induction false} BareFront(t: Table, item: Item, items: seq<Item>, i: nat)
    requires Known(t, item.name) && i < |items|
    ensures Bare(t, [item] + items, i + 1) <==> Bare(Stored(t, item), items, i)
  {
    hide LastValue, Find, Stored;
    var all := [item] + items;
    var k := Find(t, items[i].name);
    StoredKeeps(t, item);
    SameFind(t, Stored(t, item), items[i].name);
    assert all[..i + 1] == [item] + items[..i] && all[i + 1] == items[i];
    if k < |t| {
      LastValueFront(t, item, items[..i], k);
    }
  }

  lemma {:induction false} BareFirst(t: Table, item: Item, items: seq<Item>)
    requires Known(t, item.name)
    ensures var k := Find(t, item.name);
            Bare(t, [item] + items, 0) <==> t[k].required && item.value.None? && t[k].value == ""
  {
    assert ([item] + items)[..0] == [];
  }

  /** One item in front of tokens that are not its value. */
  lemma {:induction false} ScanFirst(t: Table, item: Item, tokens: seq<string>)
    requires DashNames(t) && Known(t, item.name) && (item.value.Some? ==> !Dashed(item.value.value))
    requires tokens == [] || Dashed(tokens[0]) || item.value.Some?
    ensures Scan(t, RenderItem(item) + tokens) ==
            if Bare(t, [item], 0) then (Stored(t, item), Rejected(ValueRequired(item.name)))
            else Scan(Stored(t, item), tokens)
  {
    hide Find;
    var all := RenderItem(item) + tokens;
    var k := Find(t, item.name);
    var t' := t[k := t[k].(found := true)];
    assert [item][..0] == [] && LastValue(t, [], k) == t[k].value;
    if item.value.Some? {
      assert all[2..] == tokens && all[1] == item.value.value;
      assert t'[k := t'[k].(value := all[1])] == Stored(t, item);
    } else {
      assert all[1..] == tokens;
      assert t' == Stored(t, item);
    }
  }

  lemma {:induction false} BareAlone(t: Table, item: Item, more: seq<Item>)
    requires Known(t, item.name)
    ensures Bare(t, [item] + more, 0) <==> Bare(t, [item], 0)
  {
    BareFirst(t, item, more);
    BareFirst(t, item, []);
    assert [item] + [] == [item];
  }

  lemma {:induction false} BareItems(t: Table, item: Item, more: seq<Item>)
    requires Known(t, item.name)
    ensures NoneBare(t, [item] + more) <==> !Bare(t, [item], 0) && NoneBare(Stored(t, item), more)
    ensures forall i: nat :: FirstBare(t, [item] + more, i) <==>
              if i == 0 then Bare(t, [item], 0)
              else !Bare(t, [item], 0) && FirstBare(Stored(t, item), more, i - 1)
  {
    hide Bare, Stored, Find;
    var items, t' := [item] + more, Stored(t, item);
    BareAlone(t, item, more);
    forall i: nat | i < |more|
      ensures Bare(t, items, i + 1) <==> Bare(t', more, i)
    {
      BareFront(t, item, more, i);
    }
    forall i: nat | 0 < i < |items|
      ensures Bare(t, items, i) <==> Bare(t', more, i - 1)
    {
      assert Bare(t, items, i - 1 + 1) <==> Bare(t', more, i - 1);
    }
    assert forall j: nat | j < |more| :: Bare(t', more, j) ==> Bare(t, items, j + 1);
  }

  /** Scanning items and then other tokens: it stops at the first bare item, with the items up
      to it stored, or goes on with the tokens when there is none. */
  lemma {:induction false} ScanItems(t: Table, items: seq<Item>, rest: seq<string>)
    requires DashNames(t) && Renderable(t, items) && Apart(items, rest)
    ensures NoneBare(t, items) ==> Scan(t, Render(items) + rest) == Scan(StoredAll(t, items), rest)
    ensures forall i: nat | FirstBare(t, items, i) ::
              i < |items| &&
              Scan(t, Render(items) + rest) == (StoredAll(t, items[..i + 1]), Rejected(ValueRequired(items[i].name)))
    decreases |items|
  {
    hide Scan, Find, Stored, Bare, RenderItem, NoneBare, FirstBare, StoredAll, Apart, DashNames;
    if items == [] {
      NoItems(t);
      assert Render(items) + rest == rest;
    } else {
      var item, more := items[0], items[1..];
      assert items == [item] + more;
      var t' := Stored(t, item);
      RenderFront(item, more);
      assert Render(items) + rest == RenderItem(item) + (Render(more) + rest);
      StoredKeeps(t, item);
      SameTable(t, t');
      MoreRenderable(t, t', item, more);
      NextIsApart(t', item, more, rest);
      ScanFirst(t, item, Render(more) + rest);
      ScanItems(t', more, rest);
      StoredFront(t, item, more);
      BareItems(t, item, more);
      forall i: nat | FirstBare(t, items, i)
        ensures i < |items|
        ensures Scan(t, Render(items) + rest) == (StoredAll(t, items[..i + 1]), Rejected(ValueRequired(items[i].name)))
      {
        if i == 0 {
          assert items[..1] == [item];
          StoredOne(t, item);
        } else {
          assert FirstBare(t', more, i - 1);
          assert items[..i + 1] == [item] + more[..i];
          StoredFront(t, item, more[..i]);
        }
      }
    }
  }

  lemma {:induction false} NoItems(t: Table)
    ensures NoneBare(t, []) && StoredAll(t, []) == t && Render([]) == []
    ensures forall i: nat :: !FirstBare(t, [], i)
  {
  }

  lemma {:induction false} MoreRenderable(t: Table, t': Table, item: Item, more: seq<Item>)
    requires SameArguments(t, t') && Renderable(t, [item] + more)
    ensures Renderable(t', more)
  {
    forall i | 0 <= i < |more|
      ensures Known(t', more[i].name) && (more[i].value.Some? ==> !Dashed(more[i].value.value))
    {
      assert more[i] == ([item] + more)[i + 1];
      SameFind(t, t', more[i].name);
    }
  }

  lemma {:induction false} NextIsApart(t: Table, item: Item, more: seq<Item>, rest: seq<string>)
    requires DashNames(t) && Renderable(t, more) && Apart([item] + more, rest)
    ensures Apart(more, rest)
    ensures var tokens := Render(more) + rest; tokens == [] || Dashed(tokens[0]) || item.value.Some?
  {
    if more != [] {
      RenderFront(more[0], more[1..]);
      assert more == [more[0]] + more[1..];
      NameIsDashed(t, more[0].name);
    }
  }

  // ----- Every tail is items and a remainder

  /** Any tokens are a list of items followed by nothing or by a token that is neither a known
      name nor the value of the item before it. */
  lemma {:induction false} TokensSplit(t: Table, tokens: seq<string>) returns (items: seq<Item>, rest: seq<string>)
    requires DashNames(t)
    ensures Renderable(t, items) && tokens == Render(items) + rest && Apart(items, rest)
    ensures rest != [] ==> !Known(t, rest[0])
    decreases |tokens|
  {
    if tokens == [] || !Known(t, tokens[0]) {
      items, rest := [], tokens;
    } else {
      hide Find, Render, RenderItem, DashNames, Renderable, Apart;
      var item := FirstItem(tokens);
      FirstItemFits(t, tokens);
      var more, rest' := TokensSplit(t, tokens[|RenderItem(item)|..]);
      RenderFront(item, more);
      items, rest := [item] + more, rest';
      assert tokens == RenderItem(item) + (Render(more) + rest);
      ItemInFront(t, tokens, more, rest);
    }
  }

  /** The item a known name begins. */
  function FirstItem(tokens: seq<string>): Item
    requires tokens != []
  {
    Item(tokens[0], if |tokens| > 1 && !Dashed(tokens[1]) then Some(tokens[1]) else None)
  }

  lemma {:induction false} FirstItemFits(t: Table, tokens: seq<string>)
    requires tokens != [] && Known(t, tokens[0])
    ensures var item := FirstItem(tokens);
            && 1 <= |RenderItem(item)| <= |tokens|
            && tokens == RenderItem(item) + tokens[|RenderItem(item)|..]
            && (item.value.None? ==> RenderItem(item) == [tokens[0]])
  {
    RenderedAs(FirstItem(tokens));
    hide Find, RenderItem;
  }

  lemma {:induction false} ItemInFront(t: Table, tokens: seq<string>, more: seq<Item>, rest: seq<string>)
    requires tokens != [] && Known(t, tokens[0]) && Renderable(t, more) && Apart(more, rest)
    requires tokens[|RenderItem(FirstItem(tokens))|..] == Render(more) + rest
    requires |RenderItem(FirstItem(tokens))| <= |tokens|
    ensures Renderable(t, [FirstItem(tokens)] + more) && Apart([FirstItem(tokens)] + more, rest)
  {
    var item := FirstItem(tokens);
    RenderedAs(item);
    hide Find, RenderItem;
    if more == [] {
      assert Render(more) + rest == rest;
    }
  }

  lemma {:induction false} RenderedAs(item: Item)
    ensures RenderItem(item) == if item.value.Some? then [item.name, item.value.value] else [item.name]
  {
  }

  // ----- The end of a parse

  lemma {:induction false} UnknownStops(t: Table, rest: seq<string>)
    requires rest != [] && !Known(t, rest[0])
    ensures Scan(t, rest) == (t, Rejected(UnknownArgument(rest[0])))
  {
  }

  predicate NamedBy(t: Table, items: seq<Item>, k: nat) {
    exists i :: 0 <= i < |items| && Find(t, items[i].name) == k
  }

  lemma {:induction false} FoundAfter(t: Table, items: seq<Item>, k: nat)
    requires k < |t|
    ensures |StoredAll(t, items)| == |t|
    ensures StoredAll(t, items)[k].found <==> t[k].found || NamedBy(t, items, k)
  {
    hide Find, LastValue, Stored, NamedBy;
    StoredAllMeaning(t, items);
    if items == [] {
      assert !NamedBy(t, [], k) by {
        NamedByNothing(t, k);
      }
    } else {
      var front, item := items[..|items| - 1], items[|items| - 1];
      FoundAfter(t, front, k);
      StoredAllMeaning(t, front);
      SameFind(t, StoredAll(t, front), item.name);
      FoundByOne(StoredAll(t, front), item, k);
      NamedByStep(t, front, item, k);
      assert items == front + [item];
    }
  }

  lemma {:induction false} NamedByNothing(t: Table, k: nat)
    ensures !NamedBy(t, [], k)
  {
  }

  lemma {:induction false} NamedByStep(t: Table, items: seq<Item>, item: Item, k: nat)
    ensures NamedBy(t, items + [item], k) <==> NamedBy(t, items, k) || Find(t, item.name) == k
  {
    hide Find;
    assert (items + [item])[|items|] == item;
    assert forall i | 0 <= i < |items| :: (items + [item])[i] == items[i];
  }

  lemma {:induction false} FoundByOne(t: Table, item: Item, k: nat)
    requires k < |t|
    ensures |Stored(t, item)| == |t|
    ensures Stored(t, item)[k].found <==> t[k].found || Find(t, item.name) == k
  {
    hide Find;
  }

  /** Argument k is required and neither this line nor an earlier one named it. */
  predicate Unnamed(t: Table, items: seq<Item>, k: nat)
    requires k < |t|
  {
    t[k].required && !t[k].found && !NamedBy(t, items, k)
  }

  /** The whole outcome: without a separator a line with arguments is refused; behind the first
      separator the first bare required flag is refused, else the first token that is no item,
      else the first required argument never named; and only then the line is accepted. */
  lemma {:induction false} ParseEnds(t: Table, program: string, eal: seq<string>, items: seq<Item>, rest: seq<string>)
    requires DashNames(t) && Renderable(t, items) && Apart(items, rest) && (rest != [] ==> !Known(t, rest[0]))
    requires "--" !in eal
    ensures eal != [] ==> Parsed(t, [program] + eal) == (t, Rejected(MissingSeparator))
    ensures var (t', r) := Parsed(t, [program] + eal + ["--"] + Render(items) + rest);
            && (forall i: nat | FirstBare(t, items, i) :: r == Rejected(ValueRequired(items[i].name)))
            && (NoneBare(t, items) ==> t' == StoredAll(t, items))
            && (NoneBare(t, items) && rest != [] ==> r == Rejected(UnknownArgument(rest[0])))
            && (NoneBare(t, items) && rest == [] ==>
                  && ((forall k: nat | k < |t| :: !Unnamed(t, items, k)) ==> r == Accepted)
                  && forall k: nat | k < |t| && Unnamed(t, items, k)
                                     && (forall j: nat | j < k :: !Unnamed(t, items, j)) ::
                       r == Rejected(RequiredMissing(t[k].longName)))
  {
    hide Scan, Find, Bare, StoredAll, LastValue;
    var tail := Render(items) + rest;
    TailBehind(program, eal, tail);
    assert [program] + eal + ["--"] + tail == [program] + eal + ["--"] + Render(items) + rest;
    ScanItems(t, items, rest);
    var t' := StoredAll(t, items);
    StoredAllMeaning(t, items);
    if rest != [] {
      SameFind(t, t', rest[0]);
      UnknownStops(t', rest);
    } else {
      NothingToScan(t');
    }
    forall k: nat | k < |t|
      ensures t'[k].required && !t'[k].found <==> Unnamed(t, items, k)
      ensures t'[k].longName == t[k].longName
    {
      FoundAfter(t, items, k);
    }
    hide Unnamed;
    CheckedMeaning(t');
  }

  lemma {:induction false} NothingToScan(t: Table)
    ensures Scan(t, []) == (t, Accepted)
  {
  }

  lemma {:induction false} CheckedMeaning(t: Table)
    ensures (forall k: nat | k < |t| :: !(t[k].required && !t[k].found)) ==> Checked(t) == Accepted
    ensures forall k: nat | k < |t| && t[k].required && !t[k].found
                            && (forall j: nat | j < k :: !(t[j].required && !t[j].found)) ::
              Checked(t) == Rejected(RequiredMissing(t[k].longName))
  {
  }

  lemma {:induction false} TailBehind(program: string, eal: seq<string>, tail: seq<string>)
    requires "--" !in eal
    ensures Tail([program] + eal + ["--"] + tail) == Some(tail)
    ensures eal != [] ==> Tail([program] + eal) == None
  {
    var argv := [program] + eal + ["--"] + tail;
    var at := 1 + |eal|;
    forall j | 1 <= j < at
      ensures argv[j] != "--" && ([program] + eal)[j] != "--"
    {
      assert argv[j] == eal[j - 1] == ([program] + eal)[j];
    }
    assert argv[at] == "--";
    assert Separator(argv, 1) == at;
    assert argv[at + 1..] == tail;
  }

  /** A name reads the value of the first argument called so, and nothing when there is none. */
  lemma {:induction false} NameReads(t: Table, name: string)
    ensures (forall j | 0 <= j < |t| :: t[j].longName != name && t[j].shortName != name) ==> Get(t, name) == ""
    ensures forall k: nat | k < |t| && (t[k].longName == name || t[k].shortName == name)
                            && (forall j | 0 <= j < k :: t[j].longName != name && t[j].shortName != name) ::
              Get(t, name) == t[k].value
  {
  }
}
