/** Named connections: what the static validator tracks, and what the scenario runner does
    to its three tables of live connections, listeners and accepted connections. */
module Connections {
  import opened Text

  datatype Kind =
    | Connect | Listen | AcceptHandshake
    | Handshake | ChainSync | BlockFetch | LeiosNotify | LeiosFetch | QueryTip
    | Disconnect | CloseListener
    | ServeChainSync | ServeBlockFetch | ServeLeiosNotify | ServeLeiosFetch
    | Sleep | EmitPeerEvent | AdvanceToSlot | TickSlots | PeerExtendsChain
    | Nested  // the opening of a repeat or parallel step itself

  datatype Action = Action(kind: Kind, asName: Option<Str>, onName: Option<Str>)

  /** A scenario step: an action, or a body run a number of times. */
  datatype StepDef = Do(action: Action) | Repeat(times: nat, body: seq<StepDef>)

  const DEFAULT_NAME: Str := [0x64, 0x65, 0x66, 0x61, 0x75, 0x6c, 0x74]  // "default"

  function NameOr(n: Option<Str>): Str {
    if n.Some? then n.value else DEFAULT_NAME
  }

  /** A name in one of the three tables. */
  datatype Slot = Client(name: Str) | Listener(name: Str) | Server(name: Str)

  function Opens(a: Action): Option<Slot> {
    match a.kind
    case Connect => Some(Client(NameOr(a.asName)))
    case Listen => Some(Listener(NameOr(a.asName)))
    case AcceptHandshake => Some(Server(NameOr(a.asName)))
    case _ => None
  }

  function Closes(a: Action): Option<Slot> {
    match a.kind
    case Disconnect => Some(Client(NameOr(a.onName)))
    case CloseListener => Some(Listener(NameOr(a.onName)))
    case _ => None
  }

  /** The entry a step looks up when it runs, failing if it is not there. */
  function LooksUp(a: Action): Option<Slot> {
    match a.kind
    case Handshake | ChainSync | BlockFetch | LeiosNotify | LeiosFetch | Disconnect =>
      Some(Client(NameOr(a.onName)))
    case ServeChainSync | ServeBlockFetch | ServeLeiosNotify | ServeLeiosFetch =>
      Some(Server(NameOr(a.onName)))
    case AcceptHandshake => Some(Listener(NameOr(a.onName)))
    case _ => None
  }

  /** The entry the validator wants open: besides the above, a tip query (which opens its
      own connection when run) and closing a listener (which ignores an absent one). */
  function MustBeOpen(a: Action): Option<Slot> {
    match a.kind
    case QueryTip => Some(Client(NameOr(a.onName)))
    case CloseListener => Some(Listener(NameOr(a.onName)))
    case _ => LooksUp(a)
  }

  // ---- the validator ----------------------------------------------------------------------------

  datatype NameError = NotOpen(index: nat, slot: Slot) | AlreadyOpen(index: nat, slot: Slot)

  function One(s: Option<Slot>): set<Slot> {
    if s.Some? then {s.value} else {}
  }

  function NamesAfter(names: set<Slot>, a: Action): set<Slot> {
    names + One(Opens(a)) - One(Closes(a))
  }

  function StepErrors(names: set<Slot>, index: nat, a: Action): seq<NameError> {
    (if MustBeOpen(a).Some? && MustBeOpen(a).value !in names then [NotOpen(index, MustBeOpen(a).value)] else [])
    + (if Opens(a).Some? && Opens(a).value in names then [AlreadyOpen(index, Opens(a).value)] else [])
  }

  /** The tables' names after the first `n` actions. */
  function NamesUpTo(actions: seq<Action>, n: nat): set<Slot>
    requires n <= |actions|
  {
    if n == 0 then {} else NamesAfter(NamesUpTo(actions, n - 1), actions[n - 1])
  }

  function ErrorsUpTo(actions: seq<Action>, n: nat): seq<NameError>
    requires n <= |actions|
  {
    if n == 0 then []
    else ErrorsUpTo(actions, n - 1) + StepErrors(NamesUpTo(actions, n - 1), n - 1, actions[n - 1])
  }

  /** The three sets the validator keeps hold exactly these names. */
  ghost predicate Tracks(clients: set<Str>, listeners: set<Str>, servers: set<Str>, names: set<Slot>) {
    && (forall n :: n in clients <==> Client(n) in names)
    && (forall n :: n in listeners <==> Listener(n) in names)
    && (forall n :: n in servers <==> Server(n) in names)
  }

  const NESTED: Action := Action(Nested, None, None)

  /** The actions the validator looks at; it steps over repeat bodies. */
  function TopLevel(steps: seq<StepDef>): (r: seq<Action>)
    ensures |r| == |steps|
    ensures forall i :: 0 <= i < |r| ==>
      r[i] == if steps[i].Do? then steps[i].action else NESTED
  {
    if steps == [] then []
    else [if steps[0].Do? then steps[0].action else NESTED] + TopLevel(steps[1..])
  }

  function Times(n: nat, actions: seq<Action>): seq<Action> {
    if n == 0 then [] else actions + Times(n - 1, actions)
  }

  /** The actions a scenario executes, repeat bodies written out. */
  function Unroll(steps: seq<StepDef>): seq<Action>
    decreases steps
  {
    if steps == [] then []
    else
      var first := match steps[0]
        case Do(a) => [a]
        case Repeat(times, body) => [NESTED] + Times(times, Unroll(body));
      first + Unroll(steps[1..])
  }

  method ValidateConnectionNames(steps: seq<StepDef>) returns (errors: seq<NameError>)
    ensures errors == ErrorsUpTo(TopLevel(steps), |steps|)
  {
    hide StepErrors, NamesAfter;
    errors := [];
    var openClients: set<Str>, openListeners: set<Str>, openServers: set<Str> := {}, {}, {};
    ghost var actions := TopLevel(steps);
    for i := 0 to |steps|
      invariant errors == ErrorsUpTo(actions, i)
      invariant Tracks(openClients, openListeners, openServers, NamesUpTo(actions, i))
    {
      if steps[i].Do? {
        var more;
        more, openClients, openListeners, openServers :=
          CheckStep(i, steps[i].action, openClients, openListeners, openServers, NamesUpTo(actions, i));
        errors := errors + more;
      } else {
        NestedIgnored(NamesUpTo(actions, i), i);
      }
    }
  }

  lemma NestedIgnored(names: set<Slot>, i: nat)
    ensures NamesAfter(names, NESTED) == names && StepErrors(names, i, NESTED) == []
  {
  }

  /** The loop body for a step that is not nested. */
  method CheckStep(i: nat, action: Action, openClients: set<Str>, openListeners: set<Str>, openServers: set<Str>,
                   ghost names: set<Slot>)
    returns (errors: seq<NameError>, clients: set<Str>, listeners: set<Str>, servers: set<Str>)
    requires Tracks(openClients, openListeners, openServers, names)
    ensures errors == StepErrors(names, i, action)
    ensures Tracks(clients, listeners, servers, NamesAfter(names, action))
  {
    errors, clients, listeners, servers := [], openClients, openListeners, openServers;
    var asName, onName := NameOr(action.asName), NameOr(action.onName);
    match action.kind {
      case Connect =>
        if asName in clients { errors := errors + [AlreadyOpen(i, Client(asName))]; }
        clients := clients + {asName};
      case Listen =>
        if asName in listeners { errors := errors + [AlreadyOpen(i, Listener(asName))]; }
        listeners := listeners + {asName};
      case AcceptHandshake =>
        if onName !in listeners { errors := errors + [NotOpen(i, Listener(onName))]; }
        if asName in servers { errors := errors + [AlreadyOpen(i, Server(asName))]; }
        servers := servers + {asName};
      case Handshake | ChainSync | BlockFetch | QueryTip | LeiosNotify | LeiosFetch =>
        if onName !in clients { errors := errors + [NotOpen(i, Client(onName))]; }
      case Disconnect =>
        if onName !in clients { errors := errors + [NotOpen(i, Client(onName))]; }
        clients := clients - {onName};
      case ServeChainSync | ServeBlockFetch | ServeLeiosNotify | ServeLeiosFetch =>
        if onName !in servers { errors := errors + [NotOpen(i, Server(onName))]; }
      case CloseListener =>
        if onName !in listeners { errors := errors + [NotOpen(i, Listener(onName))]; }
        listeners := listeners - {onName};
      case Sleep | EmitPeerEvent | AdvanceToSlot | TickSlots | PeerExtendsChain | Nested =>
    }
  }

  // ---- the runner, as values -----------------------------------------------------------------------

  /** Live entries by name; every opened connection or listener gets a fresh handle.
      Handles that are no longer live were closed, or silently replaced under their name. */
  datatype Tables = Tables(live: map<Slot, nat>, next: nat, closed: set<nat>, replaced: set<nat>)

  const NOTHING_OPEN: Tables := Tables(map[], 0, {}, {})

  function Opened(t: Tables, slot: Slot): Tables {
    t.(live := t.live[slot := t.next], next := t.next + 1,
       replaced := t.replaced + if slot in t.live then {t.live[slot]} else {})
  }

  function Removed(t: Tables, slot: Slot): Tables
    requires slot in t.live
  {
    t.(live := t.live - {slot}, closed := t.closed + {t.live[slot]})
  }

  function Apply(t: Tables, a: Action): Tables {
    if Opens(a).Some? then Opened(t, Opens(a).value)
    else if Closes(a).Some? && Closes(a).value in t.live then Removed(t, Closes(a).value)
    else t
  }

  /** Everything beyond the tables that can go wrong with a step: before it touches them
      (parameters, network), after it (trace output, assertions), or not at all. */
  datatype Luck = FailsBefore | FailsAfter | Succeeds

  datatype Verdict = Completed | Missing(index: nat, slot: Slot) | StepFailed(index: nat)

  predicate Misses(t: Tables, a: Action) {
    LooksUp(a).Some? && LooksUp(a).value !in t.live
  }

  /** Every failure path ends in cleanup, which closes whatever is live. */
  function Cleanup(t: Tables): Tables {
    t.(live := map[], closed := t.closed + t.live.Values)
  }

  /** Runs actions `i..`; stops at the first failing step. */
  function RunFrom(t: Tables, actions: seq<Action>, lucks: seq<Luck>, i: nat): (Tables, Verdict)
    requires |lucks| == |actions| && i <= |actions|
    decreases |actions| - i
  {
    if i == |actions| then (t, Completed)
    else if lucks[i] == FailsBefore then (Cleanup(t), StepFailed(i))
    else if Misses(t, actions[i]) then (Cleanup(t), Missing(i, LooksUp(actions[i]).value))
    else if lucks[i] == FailsAfter then (Cleanup(Apply(t, actions[i])), StepFailed(i))
    else RunFrom(Apply(t, actions[i]), actions, lucks, i + 1)
  }

  // ---- the runner's state, changed in place --------------------------------------------------------

  ghost predicate Holds(clients: map<Str, nat>, listeners: map<Str, nat>, servers: map<Str, nat>, live: map<Slot, nat>) {
    && (forall n :: Client(n) in live <==> n in clients)
    && (forall n :: Listener(n) in live <==> n in listeners)
    && (forall n :: Server(n) in live <==> n in servers)
    && (forall n :: n in clients ==> live[Client(n)] == clients[n])
    && (forall n :: n in listeners ==> live[Listener(n)] == listeners[n])
    && (forall n :: n in servers ==> live[Server(n)] == servers[n])
  }

  lemma HoldsOpened(clients: map<Str, nat>, listeners: map<Str, nat>, servers: map<Str, nat>,
                    live: map<Slot, nat>, slot: Slot, handle: nat)
    requires Holds(clients, listeners, servers, live)
    ensures match slot
      case Client(n) => Holds(clients[n := handle], listeners, servers, live[slot := handle])
      case Listener(n) => Holds(clients, listeners[n := handle], servers, live[slot := handle])
      case Server(n) => Holds(clients, listeners, servers[n := handle], live[slot := handle])
  {
  }

  class RunnerState {
    var connections: map<Str, nat>
    var listeners: map<Str, nat>
    var serverConnections: map<Str, nat>
    var nextHandle: nat
    ghost var live: map<Slot, nat>
    ghost var closed: set<nat>
    ghost var replaced: set<nat>

    ghost predicate Valid()
      reads this
    {
      Holds(connections, listeners, serverConnections, live)
    }

    ghost function View(): Tables
      reads this
    {
      Tables(live, nextHandle, closed, replaced)
    }

    constructor ()
      ensures Valid() && View() == NOTHING_OPEN
    {
      connections, listeners, serverConnections, nextHandle := map[], map[], map[], 0;
      live, closed, replaced := map[], {}, {};
    }

    method Open(slot: Slot)
      requires Valid()
      modifies this
      ensures Valid() && View() == Opened(old(View()), slot)
    {
      hide Holds;
      HoldsOpened(connections, listeners, serverConnections, live, slot, nextHandle);
      replaced := replaced + if slot in live then {live[slot]} else {};
      live := live[slot := nextHandle];
      match slot {
        case Client(n) => connections := connections[n := nextHandle];
        case Listener(n) => listeners := listeners[n := nextHandle];
        case Server(n) => serverConnections := serverConnections[n := nextHandle];
      }
      nextHandle := nextHandle + 1;
    }

    /** Removal by name; absent names are left to the caller. */
    method Close(slot: Slot) returns (found: bool)
      requires Valid() && !slot.Server?
      modifies this
      ensures Valid() && found == (slot in old(live))
      ensures View() == if found then Removed(old(View()), slot) else old(View())
    {
      match slot {
        case Client(n) =>
          found := n in connections;
          connections := connections - {n};
        case Listener(n) =>
          found := n in listeners;
          listeners := listeners - {n};
      }
      if found {
        closed := closed + {live[slot]};
        live := live - {slot};
      }
    }

    method Find(slot: Slot) returns (found: bool)
      requires Valid()
      ensures found <==> slot in live
    {
      found := match slot
        case Client(n) => n in connections
        case Listener(n) => n in listeners
        case Server(n) => n in serverConnections;
    }

    /** One step: the looked-up entry is taken out and put back (or, for a listener, only
        read), so nothing but opening and closing changes the tables. */
    method ExecuteStep(a: Action) returns (found: bool)
      requires Valid()
      modifies this
      ensures Valid()
      ensures found <==> !Misses(old(View()), a)
      ensures View() == if found then Apply(old(View()), a) else old(View())
    {
      hide Opened, Removed, Holds;
      found := true;
      var asName, onName := NameOr(a.asName), NameOr(a.onName);
      match a.kind {
        case Connect => Open(Client(asName));
        case Listen => Open(Listener(asName));
        case AcceptHandshake =>
          found := Find(Listener(onName));
          if found { Open(Server(asName)); }
        case Handshake | ChainSync | BlockFetch | LeiosNotify | LeiosFetch =>
          found := Find(Client(onName));
        case Disconnect =>
          found := Close(Client(onName));
        case CloseListener =>
          var ignored := Close(Listener(onName));
        case ServeChainSync | ServeBlockFetch | ServeLeiosNotify | ServeLeiosFetch =>
          found := Find(Server(onName));
        case QueryTip | Sleep | EmitPeerEvent | AdvanceToSlot | TickSlots | PeerExtendsChain | Nested =>
      }
    }

    method CleanUp()
      requires Valid()
      modifies this
      ensures Valid() && View() == Cleanup(old(View()))
    {
      closed := closed + live.Values;
      live := map[];
      serverConnections, listeners, connections := map[], map[], map[];
    }

    method Run(actions: seq<Action>, lucks: seq<Luck>) returns (v: Verdict)
      requires Valid() && |lucks| == |actions|
      modifies this
      ensures Valid() && (View(), v) == RunFrom(old(View()), actions, lucks, 0)
    {
      hide Apply, Cleanup, Holds;
      for i := 0 to |actions|
        invariant Valid()
        invariant RunFrom(View(), actions, lucks, i) == RunFrom(old(View()), actions, lucks, 0)
      {
        if lucks[i] == FailsBefore {
          CleanUp();
          return StepFailed(i);
        }
        var found := ExecuteStep(actions[i]);
        if !found {
          CleanUp();
          return Missing(i, LooksUp(actions[i]).value);
        }
        if lucks[i] == FailsAfter {
          CleanUp();
          return StepFailed(i);
        }
      }
      v := Completed;
    }
  }
}
