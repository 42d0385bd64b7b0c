/** What the program's options read after a command line, in terms of the options' own names and
    defaults alone. */
module Options {
  import opened Records
  import C = ConfigManager
  import P = CmdlineParser

  /** Long name, short name and default of every option. */
  const OPTIONS: seq<(string, string, string)> :=
    [("--help", "-h", "false"),
     ("--mode", "-m", "Loopback"),
     ("--mode-threads", "-mth", "1"),
     ("--abstract_sockname", "-absn", "cm_to_ph_sock"),
     ("--port_data_sockname", "-pdsn", "/tmp/port_data.sock"),
     ("--port_control_sockname", "-pcsn", "/tmp/port_ctrl.sock"),
     ("--vhost_sockname", "-vsn", "/tmp/vhost.sock")]

  predicate Names(j: nat, name: string) {
    j < 7 && (name == OPTIONS[j].0 || name == OPTIONS[j].1)
  }

  /** The item is an option of this program, with a value that does not begin with a dash. */
  ghost predicate Spelled(item: P.Item) {
    && (exists j: nat :: Names(j, item.name))
    && (item.value.Some? ==> item.value.value == "" || item.value.value[0] != '-')
  }

  /** Item i gives option j a value. */
  predicate Gives(items: seq<P.Item>, i: nat, j: nat) {
    i < |items| && Names(j, items[i].name) && items[i].value.Some?
  }

  ghost predicate LastGives(items: seq<P.Item>, i: nat, j: nat) {
    Gives(items, i, j) && forall k: nat | k > i :: !Gives(items, k, j)
  }

  lemma {:induction false} TableRow(j: nat)
    requires j < 7
    ensures |C.DefaultTable()| == 7
    ensures var a := C.DefaultTable()[j];
            a.longName == OPTIONS[j].0 && a.shortName == OPTIONS[j].1 && a.value == OPTIONS[j].2
  {
  }

  lemma {:induction false} FoundByName(j: nat, name: string)
    requires j < 7
    ensures P.Find(C.DefaultTable(), name) == j <==> Names(j, name)
  {
    hide C.DefaultTable, P.Find, OPTIONS;
    TableRow(j);
    C.DefaultNames(j);
  }

  lemma {:induction false} SpelledIsRenderable(items: seq<P.Item>)
    requires forall i | 0 <= i < |items| :: Spelled(items[i])
    ensures P.Renderable(C.DefaultTable(), items)
  {
    hide C.DefaultTable, P.Find, Names;
    forall i | 0 <= i < |items|
      ensures P.Known(C.DefaultTable(), items[i].name)
    {
      assert Spelled(items[i]);
      var j: nat :| Names(j, items[i].name);
      NamesBelow(j, items[i].name);
      FoundByName(j, items[i].name);
      TableRow(j);
    }
  }

  lemma {:induction false} NamesBelow(j: nat, name: string)
    ensures Names(j, name) ==> j < 7
  {
  }

  lemma {:induction false} LastValueRead(items: seq<P.Item>, j: nat)
    requires j < 7 && j < |C.DefaultTable()|
    ensures var value := P.LastValue(C.DefaultTable(), items, j);
            && ((forall i: nat :: !Gives(items, i, j)) ==> value == OPTIONS[j].2)
            && forall i: nat | LastGives(items, i, j) :: value == items[i].value.value
  {
    hide C.DefaultTable, P.Find, OPTIONS, Names;
    if items == [] {
      TableRow(j);
    } else {
      var front, item := items[..|items| - 1], items[|items| - 1];
      LastValueRead(front, j);
      FoundByName(j, item.name);
      assert forall i: nat | i < |front| :: items[i] == front[i] && (Gives(items, i, j) <==> Gives(front, i, j));
      assert Gives(items, |front|, j) <==> Names(j, item.name) && item.value.Some?;
      forall i: nat | LastGives(items, i, j)
        ensures i == |front| || LastGives(front, i, j)
      {
      }
    }
  }

  /** Any spelled options behind any EAL prefix are accepted, and each option reads, under both
      of its names, the last value given to it, or its default when none was given. */
  lemma {:induction false} OptionReads(program: string, eal: seq<string>, items: seq<P.Item>, j: nat)
    requires j < 7 && "--" !in eal && forall i | 0 <= i < |items| :: Spelled(items[i])
    ensures var (t, r) := P.Parsed(C.DefaultTable(), [program] + eal + ["--"] + P.Render(items));
            && r == P.Accepted
            && P.Get(t, OPTIONS[j].1) == P.Get(t, OPTIONS[j].0)
            && ((forall i: nat :: !Gives(items, i, j)) ==> P.Get(t, OPTIONS[j].0) == OPTIONS[j].2)
            && forall i: nat | LastGives(items, i, j) :: P.Get(t, OPTIONS[j].0) == items[i].value.value
  {
    hide C.DefaultTable, P.Find, P.Parsed, P.Get, P.LastValue, OPTIONS, Gives, Spelled;
    TableRow(j);
    SpelledIsRenderable(items);
    C.ProgramRoundTrip(program, eal, items, j);
    LastValueRead(items, j);
  }

  /** A line without options leaves every default: just the program name, or any EAL arguments
      with nothing behind the separator. */
  lemma {:induction false} DefaultsRead(program: string, eal: seq<string>)
    requires "--" !in eal
    ensures var (t, r) := P.Parsed(C.DefaultTable(), [program]); r == P.Accepted && DefaultsIn(t)
    ensures var (t, r) := P.Parsed(C.DefaultTable(), [program] + eal + ["--"]); r == P.Accepted && DefaultsIn(t)
  {
    hide C.DefaultTable, P.Find, P.Parsed, P.Get, OPTIONS;
    ProgramAlone(program);
    assert [program] + eal + ["--"] + P.Render([]) == [program] + eal + ["--"];
    forall j: nat | j < 7
      ensures ReadsDefault(P.Parsed(C.DefaultTable(), [program] + eal + ["--"]).0, j)
      ensures ReadsDefault(P.Parsed(C.DefaultTable(), [program]).0, j)
    {
      OptionReads(program, eal, [], j);
      TableReads(j);
    }
    OptionReads(program, eal, [], 0);
    Spelt(P.Parsed(C.DefaultTable(), [program]).0);
    Spelt(P.Parsed(C.DefaultTable(), [program] + eal + ["--"]).0);
  }

  /** The seven defaults, each under both of its names. */
  predicate DefaultsIn(t: P.Table) {
    && P.Get(t, "--help") == "false" && P.Get(t, "-h") == "false"
    && P.Get(t, "--mode") == "Loopback" && P.Get(t, "-m") == "Loopback"
    && P.Get(t, "--mode-threads") == "1" && P.Get(t, "-mth") == "1"
    && P.Get(t, "--abstract_sockname") == "cm_to_ph_sock" && P.Get(t, "-absn") == "cm_to_ph_sock"
    && P.Get(t, "--port_data_sockname") == "/tmp/port_data.sock" && P.Get(t, "-pdsn") == "/tmp/port_data.sock"
    && P.Get(t, "--port_control_sockname") == "/tmp/port_ctrl.sock" && P.Get(t, "-pcsn") == "/tmp/port_ctrl.sock"
    && P.Get(t, "--vhost_sockname") == "/tmp/vhost.sock" && P.Get(t, "-vsn") == "/tmp/vhost.sock"
  }

  predicate ReadsDefault(t: P.Table, j: nat)
    requires j < 7
  {
    P.Get(t, OPTIONS[j].0) == OPTIONS[j].2 && P.Get(t, OPTIONS[j].1) == OPTIONS[j].2
  }

  lemma {:induction false} Spelt(t: P.Table)
    requires forall j: nat | j < 7 :: ReadsDefault(t, j)
    ensures DefaultsIn(t)
  {
    hide P.Get;
    assert ReadsDefault(t, 0) && ReadsDefault(t, 1) && ReadsDefault(t, 2) && ReadsDefault(t, 3);
    assert ReadsDefault(t, 4) && ReadsDefault(t, 5) && ReadsDefault(t, 6);
    assert OPTIONS[0] == ("--help", "-h", "false") && OPTIONS[1] == ("--mode", "-m", "Loopback");
    assert OPTIONS[2] == ("--mode-threads", "-mth", "1");
    assert OPTIONS[3] == ("--abstract_sockname", "-absn", "cm_to_ph_sock");
    assert OPTIONS[4] == ("--port_data_sockname", "-pdsn", "/tmp/port_data.sock");
    assert OPTIONS[5] == ("--port_control_sockname", "-pcsn", "/tmp/port_ctrl.sock");
    assert OPTIONS[6] == ("--vhost_sockname", "-vsn", "/tmp/vhost.sock");
  }

  lemma {:induction false} ProgramAlone(program: string)
    ensures P.Parsed(C.DefaultTable(), [program]) == (C.DefaultTable(), P.Accepted)
  {
    C.DefaultsPlain();
    hide C.DefaultTable;
  }

  lemma {:induction false} TableReads(j: nat)
    requires j < 7
    ensures P.Get(C.DefaultTable(), OPTIONS[j].0) == OPTIONS[j].2
    ensures P.Get(C.DefaultTable(), OPTIONS[j].1) == OPTIONS[j].2
  {
    hide C.DefaultTable, P.Find, OPTIONS;
    TableRow(j);
    C.DefaultNames(j);
  }
}
