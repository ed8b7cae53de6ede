/** Taking a connection out of the shared table for the length of one step. Parallel
    branches interleave takes, returns, disconnects and connects at will; an aborted or
    failing branch returns what it holds. */
module Checkout {
  import opened Text

  // ---- the guard ------------------------------------------------------------------------------

  /** A table behind a lock, held only for single operations. */
  class SharedTable {
    var entries: map<Str, nat>

    constructor ()
      ensures entries == map[]
    {
      entries := map[];
    }
  }

  class CheckedOut {
    const name: Str
    const table: SharedTable
    var value: Option<nat>

    constructor (name: Str, table: SharedTable, value: nat)
      ensures this.name == name && this.table == table && this.value == Some(value)
    {
      this.name, this.table, this.value := name, table, Some(value);
    }

    /** Removes the entry for exclusive use; fails, changing nothing, if it is not there. */
    static method Take(table: SharedTable, name: Str) returns (guard: Option<CheckedOut>)
      modifies table
      ensures guard.Some? <==> name in old(table.entries)
      ensures guard.None? ==> table.entries == old(table.entries)
      ensures guard.Some? ==>
        && fresh(guard.value) && guard.value.name == name && guard.value.table == table
        && guard.value.value == Some(old(table.entries[name]))
        && table.entries == old(table.entries) - {name}
    {
      if name !in table.entries { return None; }
      var taken := table.entries[name];
      table.entries := table.entries - {name};
      var g := new CheckedOut(name, table, taken);
      guard := Some(g);
    }

    /** Gives the value up without putting it back. */
    method Consume() returns (v: nat)
      requires value.Some?
      modifies this
      ensures value == None && Some(v) == old(value)
    {
      v := value.value;
      value := None;
    }

    /** Puts the value back under its name, once. */
    method Drop()
      modifies this, table
      ensures value == None
      ensures table.entries == match old(value)
        case Some(v) => old(table.entries)[name := v]
        case None => old(table.entries)
    {
      if value.Some? {
        table.entries := table.entries[name := value.value];
        value := None;
      }
    }
  }

  /** A step that takes a connection and returns it leaves the table as it was. */
  method UseAndReturn(table: SharedTable, name: Str) returns (found: bool)
    modifies table
    ensures found <==> name in old(table.entries)
    ensures table.entries == old(table.entries)
  {
    var guard := CheckedOut.Take(table, name);
    found := guard.Some?;
    if found {
      guard.value.Drop();
    }
  }

  // ---- all guards together, as values -----------------------------------------------------------

  datatype Guard = Guard(name: Str, conn: nat)

  /** The table, the guards alive (by handle), and what became of the other connections. */
  datatype Pool = Pool(
    stored: map<Str, nat>, guards: map<nat, Guard>, nextConn: nat, nextGuard: nat,
    closed: set<nat>, replaced: set<nat>)

  const EMPTY_POOL: Pool := Pool(map[], map[], 0, 0, {}, {})

  datatype Op = Connect(name: Str) | Take(name: Str) | Drop(guard: nat) | Consume(guard: nat) | Disconnect(name: Str)

  function At(m: map<Str, nat>, name: Str): set<nat> {
    if name in m then {m[name]} else {}
  }

  /** One operation by any branch; one that does not apply is an error and changes nothing. */
  function Step(p: Pool, op: Op): Pool {
    match op
    case Connect(name) =>
      p.(stored := p.stored[name := p.nextConn], nextConn := p.nextConn + 1, replaced := p.replaced + At(p.stored, name))
    case Take(name) =>
      if name !in p.stored then p
      else p.(stored := p.stored - {name}, nextGuard := p.nextGuard + 1,
              guards := p.guards[p.nextGuard := Guard(name, p.stored[name])])
    case Drop(g) =>
      if g !in p.guards then p
      else
        var held := p.guards[g];
        p.(stored := p.stored[held.name := held.conn], guards := p.guards - {g},
           replaced := p.replaced + At(p.stored, held.name))
    case Consume(g) =>
      if g !in p.guards then p
      else p.(guards := p.guards - {g}, closed := p.closed + {p.guards[g].conn})
    case Disconnect(name) =>
      if name !in p.stored then p
      else p.(stored := p.stored - {name}, closed := p.closed + {p.stored[name]})
  }

  /** The table with every guard alive on it, as the branches of a scenario share them. */
  class Workspace {
    const table: SharedTable
    var guards: map<nat, CheckedOut>
    var nextConn: nat
    var nextGuard: nat
    ghost var held: map<nat, Guard>
    ghost var closed: set<nat>
    ghost var replaced: set<nat>

    ghost predicate Valid()
      reads this, guards.Values
    {
      && held.Keys == guards.Keys
      && (forall g :: g in guards ==>
            && guards[g].table == table && g < nextGuard
            && guards[g].name == held[g].name && guards[g].value == Some(held[g].conn))
      && (forall g, g' :: g in guards && g' in guards && g != g' ==> guards[g] != guards[g'])
    }

    ghost function View(): Pool
      reads this, table
    {
      Pool(table.entries, held, nextConn, nextGuard, closed, replaced)
    }

    constructor ()
      ensures Valid() && fresh(table) && View() == EMPTY_POOL
    {
      table := new SharedTable();
      guards, nextConn, nextGuard := map[], 0, 0;
      held, closed, replaced := map[], {}, {};
    }

    /** A new connection goes straight into the table. */
    method Connect(name: Str)
      requires Valid()
      modifies this, table
      ensures Valid() && View() == Step(old(View()), Op.Connect(name)) && guards == old(guards)
    {
      replaced := replaced + At(table.entries, name);
      table.entries := table.entries[name := nextConn];
      nextConn := nextConn + 1;
    }

    method Take(name: Str)
      requires Valid()
      modifies this, table
      ensures Valid() && View() == Step(old(View()), Op.Take(name))
      ensures forall g :: g in guards && g !in old(guards) ==> fresh(guards[g])
      ensures forall g :: g in old(guards) ==> g in guards && guards[g] == old(guards)[g]
    {
      var guard := CheckedOut.Take(table, name);
      if guard.Some? {
        guards := guards[nextGuard := guard.value];
        held := held[nextGuard := Guard(name, guard.value.value.value)];
        nextGuard := nextGuard + 1;
      }
    }

    /** A guard goes out of scope: normal return, error or abort. */
    method Drop(g: nat)
      requires Valid()
      modifies this, table, guards.Values
      ensures Valid() && View() == Step(old(View()), Op.Drop(g)) && guards == old(guards) - {g}
    {
      if g in guards {
        replaced := replaced + At(table.entries, guards[g].name);
        guards[g].Drop();
      }
      guards, held := guards - {g}, held - {g};
    }

    method Consume(g: nat)
      requires Valid()
      modifies this, guards.Values
      ensures Valid() && View() == Step(old(View()), Op.Consume(g)) && guards == old(guards) - {g}
    {
      if g in guards {
        var conn := guards[g].Consume();
        closed := closed + {conn};
      }
      guards, held := guards - {g}, held - {g};
    }

    /** Disconnecting goes through the table, not through a guard. */
    method Disconnect(name: Str)
      requires Valid()
      modifies this, table
      ensures Valid() && View() == Step(old(View()), Op.Disconnect(name)) && guards == old(guards)
    {
      if name in table.entries {
        closed := closed + {table.entries[name]};
        table.entries := table.entries - {name};
      }
    }

    /** Any interleaving of the branches' operations. */
    method Interleave(ops: seq<Op>)
      requires Valid()
      modifies this, table, guards.Values
      ensures Valid() && View() == Run(old(View()), ops)
    {
      hide Step, Run;
      ghost var before, mine := View(), guards.Values;
      assert ops[..0] == [];
      RunNothing(before);
      for i := 0 to |ops|
        invariant Valid() && View() == Run(before, ops[..i])
        invariant forall g :: g in guards ==> guards[g] in mine || fresh(guards[g])
      {
        assert ops[..i + 1] == ops[..i] + [ops[i]];
        RunThen(before, ops[..i], ops[i]);
        match ops[i] {
          case Connect(name) => Connect(name);
          case Take(name) => Take(name);
          case Drop(g) => Drop(g);
          case Consume(g) => Consume(g);
          case Disconnect(name) => Disconnect(name);
        }
      }
      assert ops[..|ops|] == ops;
    }
  }

  function Run(p: Pool, ops: seq<Op>): Pool {
    if ops == [] then p else Step(Run(p, ops[..|ops| - 1]), ops[|ops| - 1])
  }

  lemma RunNothing(p: Pool)
    ensures Run(p, []) == p
  {
  }

  lemma RunThen(p: Pool, ops: seq<Op>, op: Op)
    ensures Run(p, ops + [op]) == Step(Run(p, ops), op)
  {
    assert (ops + [op])[..|ops|] == ops;
  }

  ghost predicate HeldName(p: Pool, name: Str) {
    exists g :: g in p.guards && p.guards[g].name == name
  }

  ghost predicate HeldConn(p: Pool, id: int) {
    exists g :: g in p.guards && p.guards[g].conn == id
  }

  ghost predicate StoredConn(p: Pool, id: int) {
    exists name :: name in p.stored && p.stored[name] == id
  }

  /** No name is held twice, nor both held and stored. */
  ghost predicate NamesExclusive(p: Pool) {
    && (forall g, g' :: g in p.guards && g' in p.guards && g != g' ==> p.guards[g].name != p.guards[g'].name)
    && (forall g :: g in p.guards ==> p.guards[g].name !in p.stored)
  }

  /** No connection is in two places, and none is lost: each one ever opened is stored
      under one name, or held by one guard, or closed. */
  ghost predicate ConnsExclusive(p: Pool) {
    && p.replaced == {}
    && (forall n, n' :: n in p.stored && n' in p.stored && n != n' ==> p.stored[n] != p.stored[n'])
    && (forall g, g' :: g in p.guards && g' in p.guards && g != g' ==> p.guards[g].conn != p.guards[g'].conn)
    && (forall id :: !(StoredConn(p, id) && HeldConn(p, id)))
    && (forall id :: id in p.closed ==> !StoredConn(p, id) && !HeldConn(p, id))
    && (forall id :: StoredConn(p, id) || HeldConn(p, id) || id in p.closed <==> 0 <= id < p.nextConn)
  }

  ghost predicate Exclusive(p: Pool) {
    NamesExclusive(p) && ConnsExclusive(p) && forall g :: g in p.guards ==> g < p.nextGuard
  }

  /** A connect is fresh when its name is neither stored nor held. */
  ghost predicate Fresh(p: Pool, op: Op) {
    op.Connect? ==> op.name !in p.stored && !HeldName(p, op.name)
  }

  // ---- one operation ----------------------------------------------------------------------------

  lemma NamesKept(p: Pool, op: Op)
    requires Exclusive(p)
    ensures NamesExclusive(Step(p, op)) <==> op.Connect? ==> !HeldName(p, op.name)
  {
    hide ConnsExclusive;
    var p' := Step(p, op);
    if op.Connect? && HeldName(p, op.name) {
      var g :| g in p.guards && p.guards[g].name == op.name;
      assert g in p'.guards && p'.guards[g].name in p'.stored;
    }
  }

  lemma ConnectConns(p: Pool, name: Str)
    requires ConnsExclusive(p) && name !in p.stored
    ensures ConnsExclusive(Step(p, Connect(name)))
  {
    var p' := Step(p, Connect(name));
    forall id ensures StoredConn(p', id) <==> StoredConn(p, id) || id == p.nextConn {
      assert p'.stored[name] == p.nextConn;
      if n :| n in p.stored && p.stored[n] == id { assert p'.stored[n] == id; }
    }
    assert forall id :: HeldConn(p', id) <==> HeldConn(p, id);
    assert forall n :: n in p.stored ==> StoredConn(p, p.stored[n]);
  }

  lemma TakeConns(p: Pool, name: Str)
    requires Exclusive(p) && name in p.stored
    ensures ConnsExclusive(Step(p, Take(name)))
  {
    hide NamesExclusive;
    var p', conn := Step(p, Take(name)), p.stored[name];
    forall id ensures StoredConn(p', id) <==> StoredConn(p, id) && id != conn { RemovedConn(p.stored, name, id); }
    forall id ensures HeldConn(p', id) <==> HeldConn(p, id) || id == conn {
      assert p'.guards[p.nextGuard].conn == conn;
      if g :| g in p.guards && p.guards[g].conn == id { assert p'.guards[g].conn == id; }
    }
    assert StoredConn(p, conn);
    assert forall g :: g in p.guards ==> HeldConn(p, p.guards[g].conn);
  }

  ghost predicate Among(m: map<Str, nat>, id: int) {
    exists n :: n in m && m[n] == id
  }

  lemma RemovedConn(m: map<Str, nat>, name: Str, id: int)
    requires name in m && forall n, n' :: n in m && n' in m && n != n' ==> m[n] != m[n']
    ensures Among(m - {name}, id) <==> Among(m, id) && id != m[name]
  {
    if n :| n in m && m[n] == id && id != m[name] {
      assert n in m - {name};
    }
  }

  lemma LetGoConns(p: Pool, g: nat, id: int)
    requires ConnsExclusive(p) && g in p.guards
    ensures HeldConn(p.(guards := p.guards - {g}), id) <==> HeldConn(p, id) && id != p.guards[g].conn
  {
    var p' := p.(guards := p.guards - {g});
    if g' :| g' in p.guards && p.guards[g'].conn == id && id != p.guards[g].conn {
      assert g' in p'.guards && p'.guards[g'].conn == id;
    }
  }

  lemma DropConns(p: Pool, g: nat)
    requires Exclusive(p) && g in p.guards
    ensures ConnsExclusive(Step(p, Drop(g)))
  {
    var p', held := Step(p, Drop(g)), p.guards[g];
    forall id ensures HeldConn(p', id) <==> HeldConn(p, id) && id != held.conn { LetGoConns(p, g, id); }
    forall id ensures StoredConn(p', id) <==> StoredConn(p, id) || id == held.conn {
      assert p'.stored[held.name] == held.conn;
      if n :| n in p.stored && p.stored[n] == id { assert p'.stored[n] == id; }
    }
    assert HeldConn(p, held.conn);
    assert forall n :: n in p.stored ==> StoredConn(p, p.stored[n]);
  }

  lemma ConsumeConns(p: Pool, g: nat)
    requires Exclusive(p) && g in p.guards
    ensures ConnsExclusive(Step(p, Consume(g)))
  {
    hide NamesExclusive;
    var p', held := Step(p, Consume(g)), p.guards[g];
    forall id ensures HeldConn(p', id) <==> HeldConn(p, id) && id != held.conn { LetGoConns(p, g, id); }
    assert forall id :: StoredConn(p', id) <==> StoredConn(p, id);
    assert HeldConn(p, held.conn);
  }

  lemma DisconnectConns(p: Pool, name: Str)
    requires Exclusive(p) && name in p.stored
    ensures ConnsExclusive(Step(p, Disconnect(name)))
  {
    hide NamesExclusive;
    var p', conn := Step(p, Disconnect(name)), p.stored[name];
    forall id ensures StoredConn(p', id) <==> StoredConn(p, id) && id != conn { RemovedConn(p.stored, name, id); }
    assert forall id :: HeldConn(p', id) <==> HeldConn(p, id);
    assert StoredConn(p, conn);
  }

  /** An operation keeps the pool exclusive exactly when it is not a connect on a name in use:
      connecting over a stored name loses the stored connection, connecting over a held one
      leaves the name in two places. */
  lemma StepExclusiveIff(p: Pool, op: Op)
    requires Exclusive(p)
    ensures Exclusive(Step(p, op)) <==> Fresh(p, op)
  {
    NamesKept(p, op);
    hide NamesExclusive, ConnsExclusive;
    match op
    case Connect(name) =>
      if name in p.stored {
        assert !ConnsExclusive(Step(p, op)) by { Overwriting(p, name); }
      } else {
        ConnectConns(p, name);
      }
    case Take(name) => if name in p.stored { TakeConns(p, name); }
    case Drop(g) => if g in p.guards { DropConns(p, g); }
    case Consume(g) => if g in p.guards { ConsumeConns(p, g); }
    case Disconnect(name) => if name in p.stored { DisconnectConns(p, name); }
  }

  lemma Overwriting(p: Pool, name: Str)
    requires name in p.stored
    ensures !ConnsExclusive(Step(p, Connect(name)))
  {
    assert p.stored[name] in Step(p, Connect(name)).replaced;
  }

  // ---- interleavings -------------------------------------------------------------------------------

  ghost predicate AlwaysExclusive(p: Pool, ops: seq<Op>) {
    forall k :: 0 <= k <= |ops| ==> Exclusive(Run(p, ops[..k]))
  }

  ghost predicate AlwaysFresh(p: Pool, ops: seq<Op>) {
    forall k :: 0 <= k < |ops| ==> Fresh(Run(p, ops[..k]), ops[k])
  }

  /** In every interleaving, of any length: the pool is exclusive throughout exactly when
      every connect is on a name that is then neither stored nor held. */
  lemma {:induction false} InterleavingsExclusive(p: Pool, ops: seq<Op>)
    requires Exclusive(p)
    ensures AlwaysExclusive(p, ops) <==> AlwaysFresh(p, ops)
  {
    hide Exclusive, Fresh, Step;
    if ops == [] {
      assert ops[..0] == ops;
    } else {
      var n, init := |ops| - 1, ops[..|ops| - 1];
      InterleavingsExclusive(p, init);
      assert forall k :: 0 <= k <= n ==> init[..k] == ops[..k];
      assert ops[..n + 1] == ops;
      assert AlwaysFresh(p, ops) <==> AlwaysFresh(p, init) && Fresh(Run(p, init), ops[n]) by {
        assert forall k :: 0 <= k < n ==> init[k] == ops[k];
      }
      assert AlwaysExclusive(p, ops) <==> AlwaysExclusive(p, init) && Exclusive(Run(p, ops));
      if AlwaysExclusive(p, init) {
        assert init[..n] == init;
        StepExclusiveIff(Run(p, init), ops[n]);
      }
    }
  }

  /** From the start of a scenario: the pool is exclusive through a whole interleaving exactly
      when every connect is on a name that is then neither stored nor held. */
  lemma ScenarioExclusive(ops: seq<Op>)
    ensures AlwaysExclusive(EMPTY_POOL, ops) <==> AlwaysFresh(EMPTY_POOL, ops)
  {
    EmptyExclusive();
    InterleavingsExclusive(EMPTY_POOL, ops);
  }

  lemma EmptyExclusive()
    ensures Exclusive(EMPTY_POOL)
  {
  }

  /** While a step holds a connection, taking or disconnecting it by name fails and changes
      nothing: an exclusive pool never gives a connection to two branches. */
  lemma HeldIsUnavailable(p: Pool, g: nat)
    requires Exclusive(p) && g in p.guards
    ensures Step(p, Take(p.guards[g].name)) == p && Step(p, Disconnect(p.guards[g].name)) == p
  {
    hide ConnsExclusive;
  }

  /** What can happen otherwise: a branch connects under a name another branch holds and
      disconnects it; the returning guard then puts back a connection under the closed name. */
  lemma ClosedNameComesBack(name: Str)
    ensures var ops := [Connect(name), Take(name), Connect(name), Disconnect(name), Drop(0)];
      var p := Run(EMPTY_POOL, ops);
      name in p.stored && p.stored[name] == 0 && p.closed == {1}
  {
    hide Run;
    var p1 := Step(EMPTY_POOL, Connect(name));
    var p2 := Step(p1, Take(name));
    var p3 := Step(p2, Connect(name));
    var p4 := Step(p3, Disconnect(name));
    var o1 := [Connect(name)];
    var o2 := o1 + [Take(name)];
    var o3 := o2 + [Connect(name)];
    var o4 := o3 + [Disconnect(name)];
    RunThen(EMPTY_POOL, [], Connect(name));
    assert [] + [Connect(name)] == o1;
    RunThen(EMPTY_POOL, o1, Take(name));
    RunThen(EMPTY_POOL, o2, Connect(name));
    RunThen(EMPTY_POOL, o3, Disconnect(name));
    RunThen(EMPTY_POOL, o4, Drop(0));
    assert o4 + [Drop(0)] == [Connect(name), Take(name), Connect(name), Disconnect(name), Drop(0)];
    assert Run(EMPTY_POOL, []) == EMPTY_POOL by { RunNothing(EMPTY_POOL); }
    assert p4.stored == map[] && p4.guards[0] == Guard(name, 0);
  }

  // ---- aborts ------------------------------------------------------------------------------------------

  function Drops(gs: seq<nat>): (r: seq<Op>)
    ensures |r| == |gs| && forall i :: 0 <= i < |r| ==> r[i] == Drop(gs[i])
  {
    if gs == [] then [] else Drops(gs[..|gs| - 1]) + [Drop(gs[|gs| - 1])]
  }

  /** When branches are dropped their guards return everything, in whatever order: afterwards
      each connection ever opened is in the table or closed, so closing what is in the table
      closes all. */
  lemma {:induction false} AllReturned(p: Pool, gs: seq<nat>)
    requires Exclusive(p)
    ensures var p' := Run(p, Drops(gs));
      && Exclusive(p') && p'.closed == p.closed && p'.nextConn == p.nextConn
      && (forall g :: g in p'.guards <==> g in p.guards && g !in gs)
      && (forall name :: name in p'.stored <==>
            name in p.stored || exists g :: g in gs && g in p.guards && p.guards[g].name == name)
      && (forall g :: g in p'.guards ==> p'.guards[g] == p.guards[g])
  {
    hide Exclusive, Fresh;
    if gs != [] {
      var init, last := gs[..|gs| - 1], gs[|gs| - 1];
      AllReturned(p, init);
      assert Drops(gs)[..|init|] == Drops(init);
      assert gs == init + [last];
      StepExclusiveIff(Run(p, Drops(init)), Drop(last));
      assert Fresh(Run(p, Drops(init)), Drop(last)) by { DropFresh(Run(p, Drops(init)), last); }
    }
  }

  /** Each comes back under its own name, and what was stored stays as it was. */
  lemma {:induction false} ReturnedUnderName(p: Pool, gs: seq<nat>)
    requires Exclusive(p)
    ensures var p' := Run(p, Drops(gs));
      && (forall name :: name in p.stored ==> name in p'.stored && p'.stored[name] == p.stored[name])
      && (forall g :: g in gs && g in p.guards ==>
            p.guards[g].name in p'.stored && p'.stored[p.guards[g].name] == p.guards[g].conn)
  {
    hide ConnsExclusive;
    if gs != [] {
      var init, last := gs[..|gs| - 1], gs[|gs| - 1];
      ReturnedUnderName(p, init);
      AllReturned(p, init);
      assert Drops(gs)[..|init|] == Drops(init);
      assert gs == init + [last];
      var q := Run(p, Drops(init));
      assert Run(p, Drops(gs)) == Step(q, Drop(last));
      hide Run, Drops;
      assert NamesExclusive(q) && last in q.guards ==> q.guards[last].name !in q.stored;
    }
  }

  lemma DropFresh(p: Pool, g: nat)
    ensures Fresh(p, Drop(g))
  {
  }

  lemma AbortClosesAll(p: Pool, gs: seq<nat>)
    requires Exclusive(p) && forall g :: g in p.guards ==> g in gs
    ensures var p' := Run(p, Drops(gs));
      forall id :: id in p'.closed + p'.stored.Values <==> 0 <= id < p.nextConn
  {
    hide Run, Step;
    AllReturned(p, gs);
    var p' := Run(p, Drops(gs));
    forall id ensures id in p'.stored.Values <==> StoredConn(p', id) {
      if n :| n in p'.stored && p'.stored[n] == id { assert id in p'.stored.Values; }
    }
    assert forall id :: !HeldConn(p', id);
  }
}
