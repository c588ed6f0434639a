/** How a ruleset gets into the kernel: the replacement preamble and the one transaction that
    ApplyPolicyRulesWithContext of internal/nftables/nftables.go sends. */
module NftReload {
  import opened Streams
  import opened Nft
  import opened NftTemplates
  import opened NftAudit
  import D = NftDecisions

  datatype Name = Filter(fam: Family) | Nat(fam: Family) | Foreign(name: string)

  /** A table in the kernel. Defining a table again adds to it: its chains get more rules, and its
      timed sets keep what they hold. */
  datatype Loaded = Loaded(definitions: seq<Table>, resolved: set<D.Addr>)

  type Tables = map<Name, Loaded>

  datatype Command = Ensure(n: Name) | Remove(n: Name) | Define(n: Name, t: Table)

  function Exec(k: Tables, c: Command): Option<Tables> {
    match c
    case Ensure(n) => Some(if n in k then k else k[n := Loaded([], {})])
    case Remove(n) => if n in k then Some(k - {n}) else None
    case Define(n, t) =>
      var old_ := if n in k then k[n] else Loaded([], {});
      Some(k[n := old_.(definitions := old_.definitions + [t])])
  }

  function ExecAll(k: Tables, commands: seq<Command>): Option<Tables>
    decreases |commands|
  {
    if commands == [] then Some(k)
    else match Exec(k, commands[0])
      case Some(k') => ExecAll(k', commands[1..])
      case None => None
  }

  /** nft -f: all commands or, when one fails, none. */
  function Transaction(k: Tables, commands: seq<Command>): Tables {
    match ExecAll(k, commands)
    case Some(k') => k'
    case None => k
  }

  // ---------------------------------------------------------------- what is sent

  function Clear(n: Name): seq<Command> { [Ensure(n), Remove(n)] }

  /** atomicReplacePreamble */
  function Preamble(): seq<Command> {
    Clear(Filter(V4)) + Clear(Nat(V4)) + Clear(Filter(V6)) + Clear(Nat(V6))
  }

  function Definitions(r: Ruleset): seq<Command> {
    [Define(Filter(V4), r.filterV4), Define(Nat(V4), r.natV4), Define(Filter(V6), r.filterV6), Define(Nat(V6), r.natV6)]
  }

  function Managed(): set<Name> { {Filter(V4), Nat(V4), Filter(V6), Nat(V6)} }

  function Installed(k: Tables, r: Ruleset): Tables {
    (k - Managed())[Filter(V4) := Loaded([r.filterV4], {})][Nat(V4) := Loaded([r.natV4], {})]
                   [Filter(V6) := Loaded([r.filterV6], {})][Nat(V6) := Loaded([r.natV6], {})]
  }

  // ---------------------------------------------------------------- what it does

  lemma {:induction false} ExecAppend(k: Tables, a: seq<Command>, b: seq<Command>)
    ensures ExecAll(k, a + b) == match ExecAll(k, a) case Some(k') => ExecAll(k', b) case None => None
    decreases |a|
  {
    if a == [] {
      assert a + b == b;
    } else {
      assert (a + b)[1..] == a[1..] + b;
      if Exec(k, a[0]).Some? { ExecAppend(Exec(k, a[0]).value, a[1..], b); }
    }
  }

  lemma ClearRemoves(k: Tables, n: Name)
    ensures ExecAll(k, Clear(n)) == Some(k - {n})
  {
    var ensured := Exec(k, Ensure(n)).value;
    assert Clear(n)[1..] == [Remove(n)] && [Remove(n)][1..] == [];
    assert ensured - {n} == k - {n};
    assert ExecAll(k - {n}, []) == Some(k - {n});
    assert ExecAll(ensured, [Remove(n)]) == Some(k - {n});
  }

  lemma PreambleClears(k: Tables)
    ensures ExecAll(k, Preamble()) == Some(k - Managed())
  {
    var a, b, c, d := Clear(Filter(V4)), Clear(Nat(V4)), Clear(Filter(V6)), Clear(Nat(V6));
    ClearRemoves(k, Filter(V4));
    var k1 := k - {Filter(V4)};
    ExecAppend(k, a, b);
    ClearRemoves(k1, Nat(V4));
    var k2 := k1 - {Nat(V4)};
    ExecAppend(k, a + b, c);
    ClearRemoves(k2, Filter(V6));
    var k3 := k2 - {Filter(V6)};
    ExecAppend(k, a + b + c, d);
    ClearRemoves(k3, Nat(V6));
    assert k3 - {Nat(V6)} == k - Managed();
  }

  function Defined(k: Tables, r: Ruleset): Tables {
    k[Filter(V4) := Grown(k, Filter(V4), r.filterV4)][Nat(V4) := Grown(k, Nat(V4), r.natV4)]
     [Filter(V6) := Grown(k, Filter(V6), r.filterV6)][Nat(V6) := Grown(k, Nat(V6), r.natV6)]
  }

  lemma DefineAll(k: Tables, r: Ruleset)
    ensures ExecAll(k, Definitions(r)) == Some(Defined(k, r))
  {
    var d := Definitions(r);
    var k1 := Exec(k, d[0]).value;
    var k2 := Exec(k1, d[1]).value;
    var k3 := Exec(k2, d[2]).value;
    var k4 := Exec(k3, d[3]).value;
    assert d[1..][1..][1..][1..] == [] && d[1..][0] == d[1] && d[1..][1..][0] == d[2] && d[1..][1..][1..][0] == d[3];
    assert ExecAll(k4, []) == Some(k4);
    assert ExecAll(k3, d[1..][1..][1..]) == Some(k4);
    assert ExecAll(k2, d[1..][1..]) == Some(k4);
    assert ExecAll(k1, d[1..]) == Some(k4);
    assert k4 == Defined(k, r);
  }

  function Grown(k: Tables, n: Name, t: Table): Loaded {
    var old_ := if n in k then k[n] else Loaded([], {});
    old_.(definitions := old_.definitions + [t])
  }

  lemma GrownFromNothing(k: Tables, n: Name, t: Table)
    requires n in Managed()
    ensures Grown(k - Managed(), n, t) == Loaded([t], {})
  {
  }

  /** From any state of the kernel, fresh or with an earlier ruleset and a filled runtime set,
      one transaction leaves exactly the new ruleset's four tables, with empty runtime sets,
      and every other table as it was. */
  lemma ReplacesExactly(k: Tables, cfg: Config)
    ensures Transaction(k, Preamble() + Definitions(Program(cfg))) == Installed(k, Program(cfg))
  {
    var r := Program(cfg);
    PreambleClears(k);
    ExecAppend(k, Preamble(), Definitions(r));
    DefineAll(k - Managed(), r);
    GrownFromNothing(k, Filter(V4), r.filterV4);
    GrownFromNothing(k, Nat(V4), r.natV4);
    GrownFromNothing(k, Filter(V6), r.filterV6);
    GrownFromNothing(k, Nat(V6), r.natV6);
  }

  /** Each managed table is then the new one and nothing else, and every foreign table is as before. */
  lemma InstalledIsNew(k: Tables, r: Ruleset)
    ensures var t := Installed(k, r);
            && (forall n: Name :: n.Foreign? ==> (n in t <==> n in k) && (n in k ==> t[n] == k[n]))
            && Filter(V4) in t && t[Filter(V4)] == Loaded([r.filterV4], {}) && Nat(V4) in t && t[Nat(V4)] == Loaded([r.natV4], {})
            && Filter(V6) in t && t[Filter(V6)] == Loaded([r.filterV6], {}) && Nat(V6) in t && t[Nat(V6)] == Loaded([r.natV6], {})
  {
  }

  /** The preamble is needed in full. Without it, and also with empty declarations alone, a second ruleset is
      appended to the first and the runtime set survives; and with deletions alone nothing at all is
      applied to a kernel that lacks a table. */
  lemma PreambleNeeded(k: Tables, cfg: Config, cfg': Config, live: set<D.Addr>)
    requires k == map[Filter(V4) := Loaded([Program(cfg).filterV4], live)]
    ensures var both := Loaded([Program(cfg).filterV4, Program(cfg').filterV4], live);
            var t, t' := Transaction(k, Definitions(Program(cfg'))), Transaction(k, [Ensure(Filter(V4))] + Definitions(Program(cfg')));
            Filter(V4) in t && t[Filter(V4)] == both && t' == t
    ensures Transaction(map[], [Remove(Filter(V4))] + Definitions(Program(cfg'))) == map[]
  {
    DefineAll(k, Program(cfg'));
    EnsuredIsNoChange(k, Filter(V4), Definitions(Program(cfg')));
    var commands := [Remove(Filter(V4))] + Definitions(Program(cfg'));
    assert Exec(map[], commands[0]) == None;
  }

  /** The empty declaration of a table that is there changes nothing, whatever the table holds. */
  lemma EnsuredIsNoChange(k: Tables, n: Name, commands: seq<Command>)
    requires n in k
    ensures Transaction(k, [Ensure(n)] + commands) == Transaction(k, commands)
  {
    var all := [Ensure(n)] + commands;
    assert all[1..] == commands && Exec(k, all[0]) == Some(k);
  }
}
