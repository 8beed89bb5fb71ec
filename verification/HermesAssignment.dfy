/**
 Concurrent requests that resolve their Hermes node. Each read, bind and compare-and-swap of the route store
 is one atomic step; between two steps of one request any steps of the others may happen.
 */
module HermesAssignment {
  import opened Common
  import opened HermesRoutes

  datatype Pc =
    | Lookup
    | Lost(expected: NodeId)
    | Unbound
    | Selected(node: NodeId)
    | Reread
    | Binding(node: NodeId)
    | Done(node: NodeId)
    | Failed(conflict: bool)

  /** One request: its owner scope, perhaps a session of that scope, and the pool it was given. */
  datatype Client = Client(scope: string, session: Option<string>, nodes: set<NodeId>, rebinding: bool, pc: Pc)

  predicate WellFormed(c: Client) {
    ValidScope(c.scope) && (c.session.Some? ==> OwnerScope(c.session.value) == Some(c.scope))
  }

  datatype State = State(routes: Routes, clients: map<nat, Client>)

  /** `choice` is the healthy node that the selection picks, or None when no node is healthy. */
  datatype Label = Arrive(id: nat, client: Client) | Act(id: nat, choice: Option<NodeId>) | Forget(session: string)

  const Init := State(EMPTY, map[])

  /** The request knows its node; with a session it still has to bind that. */
  function Settle(c: Client, node: NodeId): Client {
    c.(pc := if c.session.Some? then Binding(node) else Done(node))
  }

  /** The request read `found` from the store. */
  function Use(c: Client, found: Option<NodeId>, otherwise: Pc): Client {
    if found.None? then c.(pc := otherwise)
    else if found.value in c.nodes then Settle(c, found.value)
    else c.(pc := Failed(false))
  }

  function Proceed(r: Routes, c: Client, choice: Option<NodeId>): (Routes, Client)
    requires WellFormed(c) && (choice.Some? ==> choice.value in c.nodes)
  {
    match c.pc
    case Lookup =>
      var found := if c.session.Some? then NodeForSession(r, c.session.value).value else NodeForScope(r, c.scope).value;
      if found.Some? && found.value !in c.nodes && c.rebinding then (r, c.(pc := Lost(found.value)))
      else (r, Use(c, found, Unbound))
    case Lost(expected) =>
      if choice.None? then (r, c.(pc := Failed(false)))
      else
        var (moved, current) := Rebind(r, c.scope, expected, choice.value).value;
        (moved, Use(c, current, Failed(false)))
    case Unbound =>
      var found := NodeForScope(r, c.scope).value;
      if choice.None? then (r, c.(pc := Failed(false)))
      else (r, Use(c, found, Selected(choice.value)))
    case Selected(node) =>
      var bound := BindScope(r, c.scope, node);
      if bound.Ok? then (bound.value, Settle(c, node)) else (r, c.(pc := Reread))
    case Reread => (r, Use(c, NodeForScope(r, c.scope).value, Failed(true)))
    case Binding(node) =>
      if c.session.None? then (r, c)
      else
        var bound := BindSession(r, c.session.value, node);
        if bound.Ok? then (bound.value, c.(pc := Done(node))) else (r, c.(pc := Failed(true)))
    case Done(_) => (r, c)
    case Failed(_) => (r, c)
  }

  function Step(s: State, l: Label): Option<State> {
    match l
    case Arrive(id, client) =>
      if id in s.clients || !WellFormed(client) || client.pc != Lookup then None
      else Some(s.(clients := s.clients[id := client]))
    case Act(id, choice) =>
      if id !in s.clients || !WellFormed(s.clients[id]) then None
      else if choice.Some? && choice.value !in s.clients[id].nodes then None
      else
        var (routes, client) := Proceed(s.routes, s.clients[id], choice);
        Some(State(routes, s.clients[id := client]))
    case Forget(session) => Some(s.(routes := RemoveSession(s.routes, session)))
  }

  function Run(s: State, ls: seq<Label>): Option<State>
    decreases |ls|
  {
    if ls == [] then Some(s)
    else match Step(s, ls[0])
         case None => None
         case Some(t) => Run(t, ls[1..])
  }

  // ---------- what a completed request is told ----------

  /** A request only ever heads for a node of its own pool. */
  predicate Configured(c: Client) {
    c.pc.Selected? || c.pc.Binding? || c.pc.Done? ==> c.pc.node in c.nodes
  }

  lemma ProceedCompletes(r: Routes, c: Client, choice: Option<NodeId>)
    requires Coherent(r) && WellFormed(c) && Configured(c) && (choice.Some? ==> choice.value in c.nodes)
    ensures var (later, c') := Proceed(r, c, choice);
            && Configured(c') && c'.scope == c.scope && c'.session == c.session
            && (c'.pc.Done? && !c.pc.Done? ==>
                  && Get(later.scopes, c.scope) == Some(c'.pc.node)
                  && (c.session.Some? ==> Get(later.sessions, c.session.value) == Some(c'.pc.node)))
  {
    hide OwnerScope, ValidScope;
  }

  /** What holds of every request in every reachable state, with or without rebinding. */
  ghost predicate Sound(r: Routes, c: Client) {
    && WellFormed(c) && Configured(c)
    && (c.pc.Binding? ==> c.session.Some? && c.scope in r.scopes)
    && (c.pc.Reread? ==> c.scope in r.scopes)
  }

  ghost predicate AllSound(s: State) {
    Coherent(s.routes) && forall id :: id in s.clients ==> Sound(s.routes, s.clients[id])
  }

  lemma ProceedKeepsSound(r: Routes, c: Client, choice: Option<NodeId>)
    requires Coherent(r) && Sound(r, c) && (choice.Some? ==> choice.value in c.nodes)
    ensures var (later, c') := Proceed(r, c, choice);
            Coherent(later) && Sound(later, c') && r.scopes.Keys <= later.scopes.Keys
  {
    ProceedCompletes(r, c, choice);
    ProceedKeepsCoherent(r, c, choice);
    assert c.session.Some? ==> NodeForSession(r, c.session.value) == Ok(Get(r.scopes, c.scope));
    hide OwnerScope, ValidScope, Coherent, NodeForSession;
  }

  lemma ProceedKeepsCoherent(r: Routes, c: Client, choice: Option<NodeId>)
    requires Coherent(r) && WellFormed(c) && (choice.Some? ==> choice.value in c.nodes)
    ensures Coherent(Proceed(r, c, choice).0)
  {
    hide OwnerScope, ValidScope, Coherent;
    if c.pc.Lost? && choice.Some? {
      ApplyKeepsCoherent(r, RebindOp(c.scope, c.pc.expected, choice.value));
    } else if c.pc.Selected? {
      ApplyKeepsCoherent(r, BindScopeOp(c.scope, c.pc.node));
    } else if c.pc.Binding? && c.session.Some? {
      ApplyKeepsCoherent(r, BindSessionOp(c.session.value, c.pc.node));
    }
  }

  lemma StepKeepsSound(s: State, l: Label)
    requires AllSound(s) && Step(s, l).Some?
    ensures AllSound(Step(s, l).value)
  {
    hide OwnerScope, ValidScope, Proceed, Coherent, WellFormed;
    if l.Act? {
      ProceedKeepsSound(s.routes, s.clients[l.id], l.choice);
    }
    if l.Forget? {
      ApplyKeepsCoherent(s.routes, RemoveOp(l.session));
    }
  }

  lemma {:induction false} RunKeepsSound(s: State, ls: seq<Label>)
    requires AllSound(s) && Run(s, ls).Some?
    ensures AllSound(Run(s, ls).value)
    decreases |ls|
  {
    if ls != [] {
      StepKeepsSound(s, ls[0]);
      RunKeepsSound(Step(s, ls[0]).value, ls[1..]);
    }
  }

  /** In every reachable state, with or without rebinding: at the step that completes a request, its answer is the
      node of its scope and one of its pool, and its session is bound there. */
  lemma CompletionIsCurrent(ls: seq<Label>, id: nat, choice: Option<NodeId>)
    requires Run(Init, ls).Some? && Step(Run(Init, ls).value, Act(id, choice)).Some?
    requires var s := Run(Init, ls).value;
             !s.clients[id].pc.Done? && Step(s, Act(id, choice)).value.clients[id].pc.Done?
    ensures var t := Step(Run(Init, ls).value, Act(id, choice)).value;
            var c := t.clients[id];
            && c.pc.node in c.nodes
            && Get(t.routes.scopes, c.scope) == Some(c.pc.node)
            && (c.session.Some? ==> Get(t.routes.sessions, c.session.value) == Some(c.pc.node))
  {
    RunKeepsSound(Init, ls);
    var s := Run(Init, ls).value;
    hide OwnerScope, ValidScope, Proceed, Coherent, WellFormed, Run;
    ProceedCompletes(s.routes, s.clients[id], choice);
  }

  /** Exactly when a request fails on a binding conflict, in every reachable state: it is about to bind its session
      to a node that its scope no longer has. */
  lemma ConflictExactly(ls: seq<Label>, id: nat, choice: Option<NodeId>)
    requires Run(Init, ls).Some? && Step(Run(Init, ls).value, Act(id, choice)).Some?
    requires !Run(Init, ls).value.clients[id].pc.Failed?
    ensures var s := Run(Init, ls).value;
            var c := s.clients[id];
            Step(s, Act(id, choice)).value.clients[id].pc == Failed(true)
            <==> c.pc.Binding? && Get(s.routes.scopes, c.scope) != Some(c.pc.node)
  {
    RunKeepsSound(Init, ls);
    var s := Run(Init, ls).value;
    hide Run;
    ProceedConflicts(s.routes, s.clients[id], choice);
  }

  lemma ProceedConflicts(r: Routes, c: Client, choice: Option<NodeId>)
    requires Coherent(r) && Sound(r, c) && !c.pc.Failed? && (choice.Some? ==> choice.value in c.nodes)
    ensures Proceed(r, c, choice).1.pc == Failed(true)
       <==> c.pc.Binding? && Get(r.scopes, c.scope) != Some(c.pc.node)
  {
    hide OwnerScope, ValidScope;
    if c.pc.Binding? {
      ConflictIsWithScope(r, c.session.value, c.pc.node);
    }
  }

  // ---------- one process ----------

  /** Between these positions and the next one of the same request the code does not await. */
  predicate Midway(pc: Pc) {
    pc.Selected? || pc.Reread? || pc.Binding?
  }

  /** All requests run on one event loop: while one of them is midway no other request moves. */
  ghost predicate OneProcess(s: State, ls: seq<Label>)
    decreases |ls|
  {
    ls == []
    || ((forall id :: id in s.clients && Midway(s.clients[id].pc) ==> ls[0].Forget? || (ls[0].Act? && ls[0].id == id))
        && match Step(s, ls[0])
           case None => true
           case Some(t) => OneProcess(t, ls[1..]))
  }

  /** What a midway request finds when nothing moves beside it. */
  ghost predicate Undisturbed(r: Routes, c: Client) {
    && c.pc != Failed(true) && !c.pc.Reread?
    && (c.pc.Selected? ==> c.scope !in r.scopes)
    && (c.pc.Binding? ==> Get(r.scopes, c.scope) == Some(c.pc.node))
  }

  ghost predicate AllUndisturbed(s: State) {
    AllSound(s) && forall id :: id in s.clients ==> Undisturbed(s.routes, s.clients[id])
  }

  lemma ProceedUndisturbed(r: Routes, c: Client, choice: Option<NodeId>)
    requires Coherent(r) && Sound(r, c) && Undisturbed(r, c) && (choice.Some? ==> choice.value in c.nodes)
    ensures var (later, c') := Proceed(r, c, choice);
            Undisturbed(later, c')
  {
    if !c.pc.Failed? {
      ProceedConflicts(r, c, choice);
    }
    hide OwnerScope, ValidScope;
  }

  lemma StepKeepsUndisturbed(s: State, l: Label)
    requires AllUndisturbed(s) && Step(s, l).Some? && OneProcess(s, [l])
    ensures AllUndisturbed(Step(s, l).value)
  {
    StepKeepsSound(s, l);
    hide OwnerScope, ValidScope, Proceed, Coherent, WellFormed, Sound;
    if l.Act? {
      ProceedUndisturbed(s.routes, s.clients[l.id], l.choice);
    }
  }

  lemma {:induction false} RunKeepsUndisturbed(s: State, ls: seq<Label>)
    requires AllUndisturbed(s) && Run(s, ls).Some? && OneProcess(s, ls)
    ensures AllUndisturbed(Run(s, ls).value)
    decreases |ls|
  {
    if ls != [] {
      assert OneProcess(s, [ls[0]]);
      StepKeepsUndisturbed(s, ls[0]);
      RunKeepsUndisturbed(Step(s, ls[0]).value, ls[1..]);
    }
  }

  /** In one process no request ever fails on a binding conflict, with rebinding as well: every conflict needs a
      second process that shares the route file. */
  lemma OneProcessNeverConflicts(ls: seq<Label>, id: nat)
    requires Run(Init, ls).Some? && OneProcess(Init, ls) && id in Run(Init, ls).value.clients
    ensures Run(Init, ls).value.clients[id].pc != Failed(true)
  {
    RunKeepsUndisturbed(Init, ls);
  }

  // ---------- agreement without rebinding ----------

  ghost predicate NoRebinding(ls: seq<Label>) {
    forall i :: 0 <= i < |ls| && ls[i].Arrive? ==> !ls[i].client.rebinding
  }

  /** What a request that never rebinds may rely on. */
  ghost predicate InStep(r: Routes, c: Client) {
    && WellFormed(c) && !c.rebinding && !c.pc.Lost? && c.pc != Failed(true)
    && (c.pc.Binding? ==> c.session.Some? && Get(r.scopes, c.scope) == Some(c.pc.node))
    && (c.pc.Done? ==> Get(r.scopes, c.scope) == Some(c.pc.node))
    && (c.pc.Reread? ==> c.scope in r.scopes)
  }

  ghost predicate Agreed(s: State) {
    Coherent(s.routes) && forall id :: id in s.clients ==> InStep(s.routes, s.clients[id])
  }

  /** Bound scopes stay where they are. */
  ghost predicate Keeps(r: Routes, later: Routes) {
    forall scope :: scope in r.scopes ==> Get(later.scopes, scope) == Some(r.scopes[scope])
  }

  lemma ProceedKeeps(r: Routes, c: Client, choice: Option<NodeId>)
    requires Coherent(r) && InStep(r, c) && (choice.Some? ==> choice.value in c.nodes)
    ensures var (later, c') := Proceed(r, c, choice);
            Coherent(later) && Keeps(r, later) && InStep(later, c')
  {
    hide OwnerScope, ValidScope;
  }

  lemma StepKeepsAgreed(s: State, l: Label)
    requires Agreed(s) && Step(s, l).Some? && (l.Arrive? ==> !l.client.rebinding)
    ensures Agreed(Step(s, l).value) && Keeps(s.routes, Step(s, l).value.routes)
  {
    hide OwnerScope, ValidScope, Proceed, Coherent, WellFormed;
    var t := Step(s, l).value;
    if l.Act? {
      ProceedKeeps(s.routes, s.clients[l.id], l.choice);
    }
    if l.Forget? {
      ApplyKeepsCoherent(s.routes, RemoveOp(l.session));
    }
  }

  lemma {:induction false} RunKeepsAgreed(s: State, ls: seq<Label>)
    requires Agreed(s) && Run(s, ls).Some? && NoRebinding(ls)
    ensures Agreed(Run(s, ls).value) && Keeps(s.routes, Run(s, ls).value.routes)
    decreases |ls|
  {
    if ls != [] {
      assert ls[0].Arrive? ==> !ls[0].client.rebinding;
      StepKeepsAgreed(s, ls[0]);
      RunKeepsAgreed(Step(s, ls[0]).value, ls[1..]);
    }
  }

  /** Without rebinding, in every interleaving: all completed requests of one scope have the same node, the
      store answers with it now and after any continuation, and no request fails on a binding conflict. */
  lemma FirstAssignmentsAgree(ls: seq<Label>, more: seq<Label>, a: nat, b: nat)
    requires NoRebinding(ls) && NoRebinding(more)
    requires Run(Init, ls).Some? && Run(Run(Init, ls).value, more).Some?
    requires var s := Run(Init, ls).value; a in s.clients && s.clients[a].pc.Done?
    ensures var s, t := Run(Init, ls).value, Run(Run(Init, ls).value, more).value;
            var c := s.clients[a];
            && Get(s.routes.scopes, c.scope) == Some(c.pc.node)
            && Get(t.routes.scopes, c.scope) == Some(c.pc.node)
            && (b in t.clients ==> t.clients[b].pc != Failed(true))
            && (b in t.clients && t.clients[b].scope == c.scope && t.clients[b].pc.Done? ==>
                  t.clients[b].pc.node == c.pc.node)
  {
    RunKeepsAgreed(Init, ls);
    RunKeepsAgreed(Run(Init, ls).value, more);
    var s := Run(Init, ls).value;
    assert InStep(s.routes, s.clients[a]);
  }

  lemma Onward(s: State, ls: seq<Label>, t: State)
    requires ls != [] && Step(s, ls[0]) == Some(t)
    ensures Run(s, ls) == Run(t, ls[1..])
  {
  }

  /** Binds a scope to `lost`; then the request 0, whose pool still has `lost`, looks it up, the request 1 of another
      process, whose pool has only `next`, moves the scope, and request 0 goes on to bind its session. */
  function TwoProcesses(scope: string, session: string, lost: NodeId, next: NodeId): seq<Label> {
    [Arrive(2, Client(scope, None, {lost}, true, Lookup)), Act(2, None), Act(2, Some(lost)), Act(2, None),
     Arrive(0, Client(scope, Some(session), {lost}, true, Lookup)),
     Arrive(1, Client(scope, None, {next}, true, Lookup)),
     Act(0, None), Act(1, None), Act(1, Some(next)), Act(0, None)]
  }

  /** One step of a request, inside a run. */
  lemma Acts(s: State, ls: seq<Label>, c: Client, choice: Option<NodeId>, r: Routes, c': Client)
    requires ls != [] && ls[0].Act? && ls[0].choice == choice
    requires ls[0].id in s.clients && s.clients[ls[0].id] == c && WellFormed(c)
    requires choice.Some? ==> choice.value in c.nodes
    requires Proceed(s.routes, c, choice) == (r, c')
    ensures Run(s, ls) == Run(State(r, s.clients[ls[0].id := c']), ls[1..])
  {
    hide Proceed, WellFormed;
    Onward(s, ls, State(r, s.clients[ls[0].id := c']));
  }

  /** Two processes that share the route file and see different pools can make a request fail on a conflict, from
      the empty store. */
  lemma RebindingCanConflict(scope: string, session: string, lost: NodeId, next: NodeId)
    requires OwnerScope(session) == Some(scope) && ValidScope(scope) && lost != next
    ensures var ls := TwoProcesses(scope, session, lost, next);
            && Run(Init, ls).Some? && 0 in Run(Init, ls).value.clients
            && Run(Init, ls).value.clients[0].pc == Failed(true) && !OneProcess(Init, ls)
  {
    hide OwnerScope, ValidScope, OneProcess;
    var ls := TwoProcesses(scope, session, lost, next);
    FirstBind(ls, scope, lost);
    var s4 := State(Routes(map[scope := lost], map[]), map[2 := Client(scope, None, {lost}, true, Done(lost))]);
    SecondRebinds(s4, ls[4..], scope, session, lost, next);
    if OneProcess(Init, ls) {
      OneProcessNeverConflicts(ls, 0);
      assert false;
    }
  }

  lemma FirstBind(ls: seq<Label>, scope: string, node: NodeId)
    requires ValidScope(scope) && |ls| >= 4
    requires ls[..4] == [Arrive(2, Client(scope, None, {node}, true, Lookup)),
                         Act(2, None), Act(2, Some(node)), Act(2, None)]
    ensures Run(Init, ls)
         == Run(State(Routes(map[scope := node], map[]), map[2 := Client(scope, None, {node}, true, Done(node))]),
                ls[4..])
  {
    var c := Client(scope, None, {node}, true, Lookup);
    var bound := Routes(map[scope := node], map[]);
    assert ls[0] == ls[..4][0] && ls[1] == ls[..4][1] && ls[2] == ls[..4][2] && ls[3] == ls[..4][3];
    assert ls[1..][1..] == ls[2..] && ls[2..][1..] == ls[3..] && ls[3..][1..] == ls[4..];
    assert WellFormed(c);
    assert BindScope(EMPTY, scope, node) == Ok(bound);
    hide ValidScope, Run;
    var s1, s2 := State(EMPTY, map[2 := c]), State(EMPTY, map[2 := c.(pc := Unbound)]);
    var s3 := State(EMPTY, map[2 := c.(pc := Selected(node))]);
    assert s1.clients[2 := c.(pc := Unbound)] == s2.clients && s2.clients[2 := c.(pc := Selected(node))] == s3.clients;
    assert s3.clients[2 := c.(pc := Done(node))] == map[2 := c.(pc := Done(node))];
    Onward(Init, ls, s1);
    Acts(s1, ls[1..], c, None, EMPTY, c.(pc := Unbound));
    Acts(s2, ls[2..], c.(pc := Unbound), Some(node), EMPTY, c.(pc := Selected(node)));
    Acts(s3, ls[3..], c.(pc := Selected(node)), None, bound, c.(pc := Done(node)));
  }

  lemma SecondRebinds(s: State, ls: seq<Label>, scope: string, session: string, lost: NodeId, next: NodeId)
    requires OwnerScope(session) == Some(scope) && ValidScope(scope) && lost != next
    requires s.routes == Routes(map[scope := lost], map[]) && 0 !in s.clients && 1 !in s.clients
    requires ls == [Arrive(0, Client(scope, Some(session), {lost}, true, Lookup)),
                    Arrive(1, Client(scope, None, {next}, true, Lookup)),
                    Act(0, None), Act(1, None), Act(1, Some(next)), Act(0, None)]
    ensures Run(s, ls).Some? && 0 in Run(s, ls).value.clients && Run(s, ls).value.clients[0].pc == Failed(true)
  {
    var c0, c1 := Client(scope, Some(session), {lost}, true, Lookup), Client(scope, None, {next}, true, Lookup);
    var b0, l1, d1 := c0.(pc := Binding(lost)), c1.(pc := Lost(lost)), c1.(pc := Done(next));
    var moved := Routes(map[scope := next], map[]);
    assert WellFormed(c0) && WellFormed(c1) && WellFormed(b0) && WellFormed(l1);
    assert ls[1..][1..] == ls[2..] && ls[2..][1..] == ls[3..] && ls[3..][1..] == ls[4..];
    assert ls[4..][1..] == ls[5..] && ls[5..][1..] == [];
    assert Proceed(s.routes, c0, None) == (s.routes, b0) && Proceed(s.routes, c1, None) == (s.routes, l1);
    assert Proceed(s.routes, l1, Some(next)) == (moved, d1) by {
      assert s.routes.scopes[scope := next] == moved.scopes && MoveSessions(map[], scope, next) == map[];
    }
    assert Proceed(moved, b0, None) == (moved, c0.(pc := Failed(true)));
    hide OwnerScope, ValidScope, WellFormed, Proceed, Run;
    var s1 := s.(clients := s.clients[0 := c0]);
    var s2 := s.(clients := s1.clients[1 := c1]);
    var s3 := s.(clients := s2.clients[0 := b0]);
    var s4 := s.(clients := s3.clients[1 := l1]);
    var s5 := State(moved, s4.clients[1 := d1]);
    var s6 := State(moved, s5.clients[0 := c0.(pc := Failed(true))]);
    Onward(s, ls, s1);
    Onward(s1, ls[1..], s2);
    Acts(s2, ls[2..], c0, None, s.routes, b0);
    Acts(s3, ls[3..], c1, None, s.routes, l1);
    Acts(s4, ls[4..], l1, Some(next), moved, d1);
    Acts(s5, ls[5..], b0, None, moved, c0.(pc := Failed(true)));
    RunOfNothing(s6);
  }

  lemma RunOfNothing(s: State)
    ensures Run(s, []) == Some(s)
  {
  }
}
