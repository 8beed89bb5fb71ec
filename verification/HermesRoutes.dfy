/** The durable bindings of owner scopes and sessions to Hermes nodes. */
module HermesRoutes {
  import opened Common

  predicate HexDigit(c: char) {
    '0' <= c <= '9' || 'a' <= c <= 'f'
  }

  predicate WordChar(c: char) {
    '0' <= c <= '9' || 'a' <= c <= 'z' || 'A' <= c <= 'Z' || c == '_'
  }

  /** OWNER_SCOPE_PATTERN. */
  predicate ValidScope(scope: string) {
    |scope| == 20 && forall i | 0 <= i < 20 :: HexDigit(scope[i])
  }

  /** The owner scope inside a session id of the form xpd_<scope>_<word>. */
  function OwnerScope(session: string): Option<string> {
    if |session| >= 26 && session[..4] == "xpd_" && ValidScope(session[4..24]) && session[24] == '_'
       && forall i | 25 <= i < |session| :: WordChar(session[i])
    then Some(session[4..24])
    else None
  }

  /** A session belongs to a scope exactly when it reads "xpd_", the scope, "_" and one or more word characters; a scope
      is 20 lower-case hexadecimal digits. */
  lemma OwnerScopeExactly(session: string, scope: string)
    ensures OwnerScope(session) == Some(scope)
       <==> && |scope| == 20 && (forall i :: 0 <= i < 20 ==> scope[i] in "0123456789abcdef")
            && exists word: string :: session == "xpd_" + scope + "_" + word && IsWord(word)
  {
    HexDigits();
    if OwnerScope(session) == Some(scope) {
      var word := session[25..];
      assert session == session[..4] + session[4..24] + [session[24]] + word;
      assert IsWord(word);
    }
    if word: string :| session == "xpd_" + scope + "_" + word && IsWord(word) && |scope| == 20 {
      assert session[..4] == "xpd_" && session[4..24] == scope && session[24] == '_' && session[25..] == word;
    }
  }

  predicate IsWord(word: string) {
    word != "" && forall i | 0 <= i < |word| :: WordChar(word[i])
  }

  /** The word characters are the ASCII digits and letters and the underscore. */
  lemma WordCharacters(c: char)
    ensures WordChar(c)
       <==> || c in "0123456789" || c in "abcdefghijklmnopqrstuvwxyz" || c in "ABCDEFGHIJKLMNOPQRSTUVWXYZ" || c == '_'
  {
    var digits, small, large := "0123456789", "abcdefghijklmnopqrstuvwxyz", "ABCDEFGHIJKLMNOPQRSTUVWXYZ";
    Alphabet(digits, '0', 10, c);
    Alphabet(small, 'a', 26, c);
    Alphabet(large, 'A', 26, c);
  }

  /** A text that lists `n` characters in order, from `first` on, holds exactly those. */
  lemma Alphabet(all: string, first: char, n: nat, c: char)
    requires |all| == n && first as int + n < 0xD800
    requires forall i :: 0 <= i < n ==> all[i] as int == first as int + i
    ensures c in all <==> first as int <= c as int < first as int + n
  {
    if first as int <= c as int < first as int + n {
      assert all[c as int - first as int] == c;
    }
  }

  lemma HexDigits()
    ensures forall c :: HexDigit(c) <==> c in "0123456789abcdef"
  {
    var digits := "0123456789abcdef";
    forall c | HexDigit(c) ensures c in digits {
      var i := if c <= '9' then c as int - '0' as int else c as int - 'a' as int + 10;
      assert digits[i] == c;
    }
  }

  /** Configured node ids match NODE_ID_PATTERN, so they are never empty. */
  type NodeId = n: string | n != "" witness "hermes"

  datatype RouteError = InvalidValue | Conflict(existing: NodeId)

  datatype Routes = Routes(scopes: map<string, NodeId>, sessions: map<string, NodeId>)

  const EMPTY := Routes(map[], map[])

  function Get(m: map<string, NodeId>, key: string): Option<NodeId> {
    if key in m then Some(m[key]) else None
  }

  // ---------- transactions ----------

  function NodeForScope(r: Routes, scope: string): Result<Option<NodeId>, RouteError> {
    if !ValidScope(scope) then Err(InvalidValue) else Ok(Get(r.scopes, scope))
  }

  function NodeForSession(r: Routes, session: string): Result<Option<NodeId>, RouteError> {
    match OwnerScope(session)
    case None => Err(InvalidValue)
    case Some(scope) => Ok(if session in r.sessions then Some(r.sessions[session]) else Get(r.scopes, scope))
  }

  function BindScope(r: Routes, scope: string, node: NodeId): Result<Routes, RouteError> {
    if !ValidScope(scope) then Err(InvalidValue)
    else if scope in r.scopes && r.scopes[scope] != node then Err(Conflict(r.scopes[scope]))
    else Ok(r.(scopes := r.scopes[scope := node]))
  }

  function BindSession(r: Routes, session: string, node: NodeId): Result<Routes, RouteError> {
    match OwnerScope(session)
    case None => Err(InvalidValue)
    case Some(scope) =>
      if scope in r.scopes && r.scopes[scope] != node then Err(Conflict(r.scopes[scope]))
      else if session in r.sessions && r.sessions[session] != node then Err(Conflict(r.sessions[session]))
      else Ok(Routes(r.scopes[scope := node], r.sessions[session := node]))
  }

  function MoveSessions(sessions: map<string, NodeId>, scope: string, node: NodeId): map<string, NodeId> {
    map s | s in sessions :: if OwnerScope(s) == Some(scope) then node else sessions[s]
  }

  /** Compare-and-swap: the new routes and the node that the scope has afterwards. */
  function Rebind(r: Routes, scope: string, expected: NodeId, replacement: NodeId)
    : Result<(Routes, Option<NodeId>), RouteError>
  {
    if !ValidScope(scope) then Err(InvalidValue)
    else if Get(r.scopes, scope) != Some(expected) then Ok((r, Get(r.scopes, scope)))
    else Ok((Routes(r.scopes[scope := replacement], MoveSessions(r.sessions, scope, replacement)), Some(replacement)))
  }

  function RemoveSession(r: Routes, session: string): Routes {
    r.(sessions := r.sessions - {session})
  }

  class HermesRouteStore {
    var scopes: map<string, NodeId>
    var sessions: map<string, NodeId>

    function State(): Routes
      reads this
    {
      Routes(scopes, sessions)
    }

    ghost predicate Valid()
      reads this
    {
      Coherent(State())
    }

    constructor ()
      ensures Valid() && State() == EMPTY
    {
      scopes, sessions := map[], map[];
    }

    method LookupScope(scope: string) returns (reply: Result<Option<NodeId>, RouteError>)
      ensures reply == NodeForScope(State(), scope)
    {
      if !ValidScope(scope) {
        return Err(InvalidValue);
      }
      return Ok(Get(scopes, scope));
    }

    method LookupSession(session: string) returns (reply: Result<Option<NodeId>, RouteError>)
      requires Valid()
      ensures reply == NodeForSession(State(), session)
      ensures OwnerScope(session).Some? ==> reply == Ok(Get(scopes, OwnerScope(session).value))
    {
      var scope := OwnerScope(session);
      if scope.None? {
        return Err(InvalidValue);
      }
      if session in sessions {
        return Ok(Some(sessions[session]));
      }
      return Ok(Get(scopes, scope.value));
    }

    method BindScopeTo(scope: string, node: NodeId) returns (reply: Result<(), RouteError>)
      requires Valid()
      modifies this
      ensures Valid()
      ensures match BindScope(old(State()), scope, node)
              case Ok(next) => reply == Ok(()) && State() == next
              case Err(e) => reply == Err(e) && State() == old(State())
    {
      if !ValidScope(scope) {
        return Err(InvalidValue);
      }
      if scope in scopes && scopes[scope] != node {
        return Err(Conflict(scopes[scope]));
      }
      scopes := scopes[scope := node];
      return Ok(());
    }

    method BindSessionTo(session: string, node: NodeId) returns (reply: Result<(), RouteError>)
      modifies this
      ensures old(Valid()) ==> Valid()
      ensures match BindSession(old(State()), session, node)
              case Ok(next) => reply == Ok(()) && State() == next
              case Err(e) => reply == Err(e) && State() == old(State())
    {
      var owner := OwnerScope(session);
      if owner.None? {
        return Err(InvalidValue);
      }
      var scope := owner.value;
      if scope in scopes && scopes[scope] != node {
        return Err(Conflict(scopes[scope]));
      }
      if session in sessions && sessions[session] != node {
        return Err(Conflict(sessions[session]));
      }
      scopes := scopes[scope := node];
      sessions := sessions[session := node];
      return Ok(());
    }

    method RebindScopeIfMatches(scope: string, expected: NodeId, replacement: NodeId)
      returns (reply: Result<Option<NodeId>, RouteError>)
      requires Valid()
      modifies this
      ensures Valid()
      ensures match Rebind(old(State()), scope, expected, replacement)
              case Ok(outcome) => reply == Ok(outcome.1) && State() == outcome.0
              case Err(e) => reply == Err(e) && State() == old(State())
    {
      if !ValidScope(scope) {
        return Err(InvalidValue);
      }
      if Get(scopes, scope) != Some(expected) {
        return Ok(Get(scopes, scope));
      }
      ApplyKeepsCoherent(State(), RebindOp(scope, expected, replacement));
      scopes := scopes[scope := replacement];
      MoveScopeSessions(scope, replacement);
      assert State() == Apply(old(State()), RebindOp(scope, expected, replacement));
      return Ok(Some(replacement));
    }

    method MoveScopeSessions(scope: string, node: NodeId)
      modifies `sessions
      ensures sessions == MoveSessions(old(sessions), scope, node)
    {
      hide OwnerScope;
      var left := sessions.Keys;
      while left != {}
        invariant left <= old(sessions).Keys == sessions.Keys
        invariant forall s :: s in sessions ==>
                    sessions[s] == if s !in left && OwnerScope(s) == Some(scope) then node else old(sessions)[s]
        decreases |left|
      {
        var session :| session in left;
        if OwnerScope(session) == Some(scope) {
          sessions := sessions[session := node];
        }
        left := left - {session};
      }
    }

    method Forget(session: string)
      requires Valid()
      modifies this
      ensures Valid() && State() == RemoveSession(old(State()), session)
      ensures scopes == old(scopes) && session !in sessions
      ensures forall s :: s != session ==> Get(sessions, s) == Get(old(sessions), s)
    {
      sessions := sessions - {session};
    }
  }

  // ---------- coherence ----------

  /** Every stored session is bound where its owner scope is bound. */
  ghost predicate Coherent(r: Routes) {
    forall s :: s in r.sessions ==>
                  OwnerScope(s).Some? && Get(r.scopes, OwnerScope(s).value) == Some(r.sessions[s])
  }

  datatype RouteOp =
    | BindScopeOp(scope: string, node: NodeId)
    | BindSessionOp(session: string, node: NodeId)
    | RebindOp(scope: string, expected: NodeId, replacement: NodeId)
    | RemoveOp(session: string)

  function Apply(r: Routes, op: RouteOp): Routes {
    match op
    case BindScopeOp(scope, node) =>
      var reply := BindScope(r, scope, node);
      if reply.Ok? then reply.value else r
    case BindSessionOp(session, node) =>
      var reply := BindSession(r, session, node);
      if reply.Ok? then reply.value else r
    case RebindOp(scope, expected, replacement) =>
      var reply := Rebind(r, scope, expected, replacement);
      if reply.Ok? then reply.value.0 else r
    case RemoveOp(session) => RemoveSession(r, session)
  }

  function ApplyAll(r: Routes, ops: seq<RouteOp>): Routes
    decreases |ops|
  {
    if ops == [] then r else ApplyAll(Apply(r, ops[0]), ops[1..])
  }

  lemma ApplyKeepsCoherent(r: Routes, op: RouteOp)
    requires Coherent(r)
    ensures Coherent(Apply(r, op))
  {
    hide OwnerScope, ValidScope;
  }

  /** Every interleaving of binds, rebinds and removals keeps the two maps in agreement. */
  lemma {:induction false} CoherentForever(r: Routes, ops: seq<RouteOp>)
    requires Coherent(r)
    ensures Coherent(ApplyAll(r, ops))
    decreases |ops|
  {
    if ops != [] {
      ApplyKeepsCoherent(r, ops[0]);
      CoherentForever(Apply(r, ops[0]), ops[1..]);
    }
  }

  /** So the session table never changes an answer: a session is always served by the node of its scope. */
  lemma SessionFollowsScope(ops: seq<RouteOp>, session: string)
    requires OwnerScope(session).Some?
    ensures NodeForSession(ApplyAll(EMPTY, ops), session)
         == Ok(Get(ApplyAll(EMPTY, ops).scopes, OwnerScope(session).value))
  {
    CoherentForever(EMPTY, ops);
  }

  /** A bound scope changes its node only by a compare-and-swap whose expected node is the current one. */
  lemma OnlyMatchingRebindMoves(r: Routes, op: RouteOp, scope: string)
    requires scope in r.scopes
    ensures Get(Apply(r, op).scopes, scope)
         == if op.RebindOp? && op.scope == scope && ValidScope(scope) && op.expected == r.scopes[scope]
            then Some(op.replacement) else Some(r.scopes[scope])
  {
  }

  /** The second check of `bind_session` never fires: a conflict is always one with the scope's node, and it is
      raised exactly when the scope is bound to another node. */
  lemma ConflictIsWithScope(r: Routes, session: string, node: NodeId)
    requires Coherent(r) && OwnerScope(session).Some?
    ensures var bound := Get(r.scopes, OwnerScope(session).value);
            if bound.Some? && bound.value != node then BindSession(r, session, node) == Err(Conflict(bound.value))
            else BindSession(r, session, node).Ok?
  {
  }

  // ---------- what each transaction changes ----------

  /** Of the routes, at most the binding of `scope` and the given session differ. */
  ghost predicate OnlyBound(r: Routes, later: Routes, scope: string, session: Option<string>) {
    && (forall other :: other != scope ==> Get(later.scopes, other) == Get(r.scopes, other))
    && (forall s :: Some(s) != session ==> Get(later.sessions, s) == Get(r.sessions, s))
  }

  /** A scope is bound exactly if it is free or bound there already; a conflict names the node it is bound to. */
  lemma BindScopeExactly(r: Routes, scope: string, node: NodeId)
    ensures var reply, bound := BindScope(r, scope, node), Get(r.scopes, scope);
            if !ValidScope(scope) then reply == Err(InvalidValue)
            else if bound.Some? && bound.value != node then reply == Err(Conflict(bound.value))
            else reply.Ok? && Get(reply.value.scopes, scope) == Some(node) && OnlyBound(r, reply.value, scope, None)
  {
  }

  /** A session is bound together with its scope, and nothing else is. */
  lemma BindSessionExactly(r: Routes, session: string, node: NodeId)
    requires Coherent(r)
    ensures OwnerScope(session).None? ==> BindSession(r, session, node) == Err(InvalidValue)
    ensures OwnerScope(session).Some? && BindSession(r, session, node).Ok? ==>
              var scope, later := OwnerScope(session).value, BindSession(r, session, node).value;
              && Get(later.scopes, scope) == Some(node) && Get(later.sessions, session) == Some(node)
              && OnlyBound(r, later, scope, Some(session))
  {
    hide ValidScope;
  }

  /** A matching rebind moves the scope and exactly its sessions; any other one changes nothing and tells the node. */
  lemma RebindExactly(r: Routes, scope: string, expected: NodeId, replacement: NodeId)
    ensures !ValidScope(scope) ==> Rebind(r, scope, expected, replacement) == Err(InvalidValue)
    ensures ValidScope(scope) && Get(r.scopes, scope) != Some(expected) ==>
              Rebind(r, scope, expected, replacement) == Ok((r, Get(r.scopes, scope)))
    ensures ValidScope(scope) && Get(r.scopes, scope) == Some(expected) ==>
              && Rebind(r, scope, expected, replacement).Ok?
              && var (later, node) := Rebind(r, scope, expected, replacement).value;
                 && node == Some(replacement) == Get(later.scopes, scope)
                 && (forall other :: other != scope ==> Get(later.scopes, other) == Get(r.scopes, other))
                 && later.sessions.Keys == r.sessions.Keys
                 && forall s :: s in r.sessions ==>
                      later.sessions[s] == if OwnerScope(s) == Some(scope) then replacement else r.sessions[s]
  {
    hide OwnerScope;
  }

  // ---------- concurrent rebinders ----------

  /** Every rebind of `scope` in `ops` expects `expected`. */
  ghost predicate RebindsExpect(ops: seq<RouteOp>, scope: string, expected: NodeId) {
    forall i :: 0 <= i < |ops| && ops[i].RebindOp? && ops[i].scope == scope ==> ops[i].expected == expected
  }

  lemma {:induction false} NodeIsKept(r: Routes, ops: seq<RouteOp>, scope: string, expected: NodeId)
    requires scope in r.scopes && r.scopes[scope] != expected && RebindsExpect(ops, scope, expected)
    ensures Get(ApplyAll(r, ops).scopes, scope) == Some(r.scopes[scope])
    decreases |ops|
  {
    if ops != [] {
      OnlyMatchingRebindMoves(r, ops[0], scope);
      assert RebindsExpect(ops[1..], scope, expected);
      NodeIsKept(Apply(r, ops[0]), ops[1..], scope, expected);
    }
  }

  /** Of all the rebinders that expect the same lost node, the first one wins and every later one, whatever it
      asked for and whatever else happened in between, is told the winner's node; so is every lookup. */
  lemma RebindersAgree(r: Routes, scope: string, lost: NodeId, winner: NodeId, between: seq<RouteOp>, late: NodeId)
    requires ValidScope(scope) && Get(r.scopes, scope) == Some(lost) && winner != lost
    requires RebindsExpect(between, scope, lost)
    ensures Rebind(r, scope, lost, winner).value.1 == Some(winner)
    ensures var later := ApplyAll(Rebind(r, scope, lost, winner).value.0, between);
            && Rebind(later, scope, lost, late) == Ok((later, Some(winner)))
            && NodeForScope(later, scope) == Ok(Some(winner))
  {
    NodeIsKept(Rebind(r, scope, lost, winner).value.0, between, scope, lost);
  }
}
