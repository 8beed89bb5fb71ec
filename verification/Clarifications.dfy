/** The rendezvous between an agent thread that asks a question and the request that answers it. */
module Clarifications {
  import opened Common
  import Text

  datatype Status = Pending | Answered | Expired

  datatype Item = Item(session: string, owner: string, question: string, choices: seq<string>, expiresAt: int,
                       status: Status, answer: Option<string>, ready: bool)

  datatype AnswerResult = Accepted | TooLate | NotFound | Conflict

  type Table = map<string, Item>

  datatype Op =
    | CreateOp(id: string, session: string, owner: string, question: string, choices: seq<string>, timeout: int,
               now: int)
    | AnswerOp(id: string, session: string, owner: string, answer: string, now: int)
    | WaitOp(id: string)
    | ExpireSessionOp(session: string, owner: string)
    | DiscardOp(id: string)

  datatype Reply = NoReply | AnswerReply(result: AnswerResult) | WaitReply(status: Status, answer: Option<string>)

  function NewItem(op: Op): Item
    requires op.CreateOp?
  {
    var choices := Text.StripAll(op.choices);
    Item(op.session, op.owner, Text.Strip(op.question), choices[..Min(4, |choices|)], op.now + op.timeout,
         Pending, None, false)
  }

  predicate Owns(item: Item, session: string, owner: string) {
    item.session == session && item.owner == owner
  }

  function ExpireItem(item: Item): Item {
    item.(status := Expired, answer := None, ready := true)
  }

  function ExpireAll(p: Table, session: string, owner: string): Table {
    map id | id in p :: if p[id].status.Pending? && Owns(p[id], session, owner) then ExpireItem(p[id]) else p[id]
  }

  /** One locked step: the new table and what the caller is told. A wait is the locked section that follows
      the blocking wait, which ends when the item is ready or its time is up. */
  function Do(p: Table, op: Op): (Table, Reply) {
    match op
    case CreateOp(id, _, _, _, _, _, _) => (p[id := NewItem(op)], NoReply)
    case DiscardOp(id) => (p - {id}, NoReply)
    case ExpireSessionOp(session, owner) => (ExpireAll(p, session, owner), NoReply)
    case WaitOp(id) =>
      if id !in p then (p, WaitReply(Expired, None))
      else if p[id].status.Answered? then (p - {id}, WaitReply(Answered, p[id].answer))
      else (p - {id}, WaitReply(Expired, None))
    case AnswerOp(id, session, owner, answer, now) =>
      if id !in p || !Owns(p[id], session, owner) then (p, AnswerReply(NotFound))
      else if !p[id].status.Pending? then (p, AnswerReply(Conflict))
      else if now >= p[id].expiresAt then (p[id := p[id].(status := Expired, ready := true)], AnswerReply(TooLate))
      else (p[id := p[id].(status := Answered, answer := Some(answer), ready := true)], AnswerReply(Accepted))
  }

  class ClarificationRegistry {
    var pending: Table

    constructor ()
      ensures pending == map[]
    {
      pending := map[];
    }

    /** `id` is a fresh random value. */
    method Create(id: string, session: string, owner: string, question: string, choices: seq<string>,
                  timeout: int, now: int) returns (item: Item)
      requires id !in pending
      modifies this
      ensures pending == Do(old(pending), CreateOp(id, session, owner, question, choices, timeout, now)).0
      ensures id in pending && item == pending[id] && item.status.Pending? && item.answer.None?
      ensures item.session == session && item.owner == owner && item.question == Text.Strip(question)
      ensures item.expiresAt == now + timeout && !item.ready
      ensures item.choices <= Text.StripAll(choices) && |item.choices| == Min(4, |Text.StripAll(choices)|)
      ensures forall other :: other != id ==> (other in pending <==> other in old(pending))
      ensures forall other :: other in old(pending) && other != id ==> pending[other] == old(pending)[other]
      ensures |item.choices| <= 4
              && forall k :: 0 <= k < |item.choices| ==>
                               item.choices[k] != "" && Text.Strip(item.choices[k]) == item.choices[k]
    {
      Text.StripAllIsStripped(choices);
      item := NewItem(CreateOp(id, session, owner, question, choices, timeout, now));
      pending := pending[id := item];
    }

    method Discard(id: string)
      modifies this
      ensures (pending, NoReply) == Do(old(pending), DiscardOp(id))
      ensures id !in pending && forall other :: other in old(pending) && other != id ==>
                                                  other in pending && pending[other] == old(pending)[other]
    {
      pending := pending - {id};
    }

    /** Expires every pending question of one owned session and counts them. */
    method ExpireSession(session: string, owner: string) returns (expired: nat)
      modifies this
      ensures (pending, NoReply) == Do(old(pending), ExpireSessionOp(session, owner))
      ensures ExpiresExactly(old(pending), pending, session, owner)
      ensures expired == |set id | id in old(pending) && old(pending)[id].status.Pending?
                                   && Owns(old(pending)[id], session, owner)|
    {
      hide Do, Owns, ExpireItem, ExpiresExactly;
      ghost var before := pending;
      ghost var done := {};
      var left := pending.Keys;
      expired := 0;
      while left != {}
        invariant left <= before.Keys == pending.Keys
        invariant done == set id | id in before && id !in left && before[id].status.Pending?
                                   && Owns(before[id], session, owner)
        invariant expired == |done|
        invariant forall id :: id in before ==>
                    pending[id] == if id in done then ExpireItem(before[id]) else before[id]
        decreases |left|
      {
        var id :| id in left;
        if pending[id].status.Pending? && Owns(pending[id], session, owner) {
          pending := pending[id := ExpireItem(pending[id])];
          done := done + {id};
          expired := expired + 1;
        }
        left := left - {id};
      }
      ExpiredTable(before, session, owner, pending);
      assert done == set id | id in before && before[id].status.Pending? && Owns(before[id], session, owner);
    }

    /** The locked section of a wait. */
    method FinishWait(id: string) returns (status: Status, answer: Option<string>)
      modifies this
      ensures (pending, WaitReply(status, answer)) == Do(old(pending), WaitOp(id))
      ensures id !in pending && forall other :: other in old(pending) && other != id ==>
                                                  other in pending && pending[other] == old(pending)[other]
      ensures (status, answer) == if id in old(pending) && old(pending)[id].status.Answered?
                                  then (Answered, old(pending)[id].answer) else (Expired, None)
    {
      if id !in pending {
        return Expired, None;
      }
      var current := pending[id];
      if !current.status.Answered? {
        current := current.(status := Expired, answer := None);
      }
      pending := pending - {id};
      return current.status, current.answer;
    }

    method Answer(id: string, session: string, owner: string, answer: string, now: int) returns (result: AnswerResult)
      modifies this
      ensures (pending, AnswerReply(result)) == Do(old(pending), AnswerOp(id, session, owner, answer, now))
      ensures !(id in old(pending) && Owns(old(pending)[id], session, owner)) ==> result == NotFound
      ensures result.NotFound? || result.Conflict? ==> pending == old(pending)
      ensures forall other :: other in old(pending) && other != id ==>
                                other in pending && pending[other] == old(pending)[other]
      ensures result.Accepted? || result.TooLate? ==> id in pending && pending[id].ready
      ensures result.TooLate? ==> pending[id].status.Expired?
      ensures result.Accepted? <==>
                && id in old(pending) && Owns(old(pending)[id], session, owner)
                && old(pending)[id].status.Pending? && now < old(pending)[id].expiresAt
      ensures result.Accepted? ==> Do(pending, WaitOp(id)).1 == WaitReply(Answered, Some(answer))
      ensures result.TooLate? ==> Do(pending, WaitOp(id)).1 == WaitReply(Expired, None)
    {
      if id !in pending || !Owns(pending[id], session, owner) {
        return NotFound;
      }
      if !pending[id].status.Pending? {
        return Conflict;
      }
      if now >= pending[id].expiresAt {
        pending := pending[id := pending[id].(status := Expired, ready := true)];
        return TooLate;
      }
      pending := pending[id := pending[id].(answer := Some(answer), status := Answered, ready := true)];
      return Accepted;
    }
  }

  /** The pending questions of the owned session are expired and their waiters woken; all others are as they were. */
  ghost predicate ExpiresExactly(before: Table, after: Table, session: string, owner: string) {
    && after.Keys == before.Keys
    && forall id :: id in before ==>
         if before[id].status.Pending? && before[id].session == session && before[id].owner == owner
         then after[id].status.Expired? && after[id].answer.None? && after[id].ready
         else after[id] == before[id]
  }

  lemma ExpiredTable(before: Table, session: string, owner: string, after: Table)
    requires after.Keys == before.Keys
    requires forall id :: id in before ==>
               after[id] == if before[id].status.Pending? && Owns(before[id], session, owner)
                            then ExpireItem(before[id]) else before[id]
    ensures (after, NoReply) == Do(before, ExpireSessionOp(session, owner))
    ensures ExpiresExactly(before, after, session, owner)
  {
    assert after == ExpireAll(before, session, owner);
  }

  // ---------- interleavings ----------

  /** What call `i` of the interleaving `ops` is told. */
  function ReplyAt(p: Table, ops: seq<Op>, i: nat): Reply
    requires i < |ops|
    decreases i
  {
    if i == 0 then Do(p, ops[0]).1 else ReplyAt(Do(p, ops[0]).0, ops[1..], i - 1)
  }

  predicate Creates(op: Op, id: string) {
    op.CreateOp? && op.id == id
  }

  predicate Waits(op: Op, id: string) {
    op.WaitOp? && op.id == id
  }

  predicate Answers(op: Op, id: string) {
    op.AnswerOp? && op.id == id
  }

  ghost predicate NeverCreated(ops: seq<Op>, id: string) {
    forall i :: 0 <= i < |ops| ==> !Creates(ops[i], id)
  }

  /** No discard takes back a question that has been answered but not yet collected. */
  ghost predicate DiscardsAreHarmless(p: Table, ops: seq<Op>, id: string)
    decreases |ops|
  {
    ops == []
    || ((ops[0] == DiscardOp(id) && id in p ==> !p[id].status.Answered?)
        && DiscardsAreHarmless(Do(p, ops[0]).0, ops[1..], id))
  }

  /** Call `i` answers `id` and is told that its answer was accepted. */
  ghost predicate Wins(p: Table, ops: seq<Op>, id: string, i: nat) {
    i < |ops| && Answers(ops[i], id) && ReplyAt(p, ops, i) == AnswerReply(Accepted)
  }

  lemma ShiftReply(p: Table, ops: seq<Op>, i: nat)
    requires 0 < i < |ops|
    ensures ReplyAt(p, ops, i) == ReplyAt(Do(p, ops[0]).0, ops[1..], i - 1) && ops[1..][i - 1] == ops[i]
  {
  }

  lemma ShiftNeverCreated(ops: seq<Op>, id: string)
    requires ops != [] && NeverCreated(ops, id)
    ensures NeverCreated(ops[1..], id)
  {
    assert forall i :: 0 <= i < |ops| - 1 ==> ops[1..][i] == ops[i + 1];
  }

  /** Once a question is gone or expired, no answer is accepted and every wait expires. */
  lemma {:induction false} DeadStaysDead(p: Table, ops: seq<Op>, id: string, i: nat)
    requires NeverCreated(ops, id) && i < |ops|
    requires id in p ==> p[id].status.Expired?
    ensures !Wins(p, ops, id, i)
    ensures Waits(ops[i], id) ==> ReplyAt(p, ops, i) == WaitReply(Expired, None)
    decreases i
  {
    if i > 0 {
      assert !Creates(ops[0], id);
      ShiftReply(p, ops, i);
      ShiftNeverCreated(ops, id);
      DeadStaysDead(Do(p, ops[0]).0, ops[1..], id, i - 1);
    }
  }

  /** Once answered, no further answer is accepted, and the first wait collects exactly that answer. */
  lemma {:induction false} AnsweredIsCollected(p: Table, ops: seq<Op>, id: string, text: string, i: nat)
    requires NeverCreated(ops, id) && DiscardsAreHarmless(p, ops, id) && i < |ops|
    requires id in p && p[id].status.Answered? && p[id].answer == Some(text)
    ensures !Wins(p, ops, id, i)
    ensures Waits(ops[i], id) && (forall j :: 0 <= j < i ==> !Waits(ops[j], id)) ==>
              ReplyAt(p, ops, i) == WaitReply(Answered, Some(text))
    decreases i
  {
    if i > 0 {
      assert !Creates(ops[0], id);
      ShiftReply(p, ops, i);
      ShiftNeverCreated(ops, id);
      assert forall j :: 0 <= j < i - 1 ==> ops[1..][j] == ops[j + 1];
      if Waits(ops[0], id) {
        DeadStaysDead(Do(p, ops[0]).0, ops[1..], id, i - 1);
      } else {
        AnsweredIsCollected(Do(p, ops[0]).0, ops[1..], id, text, i - 1);
      }
    }
  }

  /** While a question is open: the one wait `w` and every answer `i` agree. */
  lemma {:induction false} OpenAgrees(p: Table, ops: seq<Op>, id: string, w: nat, i: nat)
    requires NeverCreated(ops, id) && DiscardsAreHarmless(p, ops, id)
    requires id in p && p[id].status.Pending?
    requires w < |ops| && Waits(ops[w], id) && forall j :: 0 <= j < w ==> !Waits(ops[j], id)
    ensures Wins(p, ops, id, i) ==> i < w && ReplyAt(p, ops, w) == WaitReply(Answered, Some(ops[i].answer))
    ensures ReplyAt(p, ops, w) == WaitReply(Expired, None) || exists a: nat :: a < w && Wins(p, ops, id, a)
    decreases |ops|
  {
    var q, rest := Do(p, ops[0]).0, ops[1..];
    assert !Creates(ops[0], id);
    ShiftNeverCreated(ops, id);
    OpenStep(p, ops, id);
    hide Do, ReplyAt;
    if 0 < i < |ops| {
      ShiftReply(p, ops, i);
    }
    if w == 0 {
      if 0 < i < |ops| {
        DeadStaysDead(q, rest, id, i - 1);
        assert !Wins(q, rest, id, i - 1);
      }
    } else {
      ShiftReply(p, ops, w);
      assert forall j :: 0 <= j < |rest| ==> rest[j] == ops[j + 1];
      if id in q && q[id].status.Pending? {
        OpenAgrees(q, rest, id, w - 1, if i > 0 then i - 1 else 0);
        if exists a: nat :: a < w - 1 && Wins(q, rest, id, a) {
          var a: nat :| a < w - 1 && Wins(q, rest, id, a);
          ShiftReply(p, ops, a + 1);
          assert Wins(p, ops, id, a + 1);
        }
      } else if id in q && q[id].status.Answered? {
        assert Wins(p, ops, id, 0);
        AnsweredIsCollected(q, rest, id, ops[0].answer, w - 1);
        if 0 < i < |ops| {
          AnsweredIsCollected(q, rest, id, ops[0].answer, i - 1);
        }
      } else {
        DeadStaysDead(q, rest, id, w - 1);
        if 0 < i < |ops| {
          DeadStaysDead(q, rest, id, i - 1);
        }
      }
    }
  }

  /** The first call leaves an open question open, answers it, or ends it. */
  lemma OpenStep(p: Table, ops: seq<Op>, id: string)
    requires ops != [] && id in p && p[id].status.Pending? && !Creates(ops[0], id)
    ensures var q := Do(p, ops[0]).0;
            && (Wins(p, ops, id, 0) <==> id in q && q[id].status.Answered?)
            && (Wins(p, ops, id, 0) ==> q[id].answer == Some(ops[0].answer))
            && (Waits(ops[0], id) ==> id !in q && ReplyAt(p, ops, 0) == WaitReply(Expired, None))
  {
  }

  /** The state just before call `n`. */
  function Table'(p: Table, ops: seq<Op>, n: nat): Table
    requires n <= |ops|
    decreases n
  {
    if n == 0 then p else Table'(Do(p, ops[0]).0, ops[1..], n - 1)
  }

  /** Before its creation a question can be neither answered nor collected, and the interleaving from its
      creation on is told the same as on its own. */
  lemma {:induction false} BeforeCreation(p: Table, ops: seq<Op>, id: string, c: nat, i: nat)
    requires id !in p && c <= |ops| && NeverCreated(ops[..c], id)
    ensures var q := Table'(p, ops, c);
            && id !in q && (DiscardsAreHarmless(p, ops, id) <==> DiscardsAreHarmless(q, ops[c..], id))
            && (i < c ==> !Wins(p, ops, id, i))
            && (c <= i < |ops| ==> ReplyAt(p, ops, i) == ReplyAt(q, ops[c..], i - c))
    decreases c
  {
    if c == 0 {
      assert ops[0..] == ops;
    } else {
      var q, rest := Do(p, ops[0]).0, ops[1..];
      assert ops[..c][0] == ops[0] && !Creates(ops[0], id);
      assert rest[..c - 1] == ops[..c][1..] && rest[c - 1..] == ops[c..];
      ShiftNeverCreated(ops[..c], id);
      BeforeCreation(q, rest, id, c - 1, if i > 0 then i - 1 else 0);
      if 0 < i < |ops| {
        ShiftReply(p, ops, i);
      }
    }
  }

  lemma CreationOpens(p: Table, op: Op, id: string)
    requires Creates(op, id)
    ensures id in Do(p, op).0 && Do(p, op).0[id].status.Pending?
  {
  }

  /** The question `id` is created once, at `c`, and `w` is the first wait for it. */
  ghost predicate AskedOnce(ops: seq<Op>, id: string, c: nat, w: nat) {
    && c < w < |ops|
    && Creates(ops[c], id) && NeverCreated(ops[..c], id) && NeverCreated(ops[c + 1..], id)
    && Waits(ops[w], id) && forall j :: 0 <= j < w ==> !Waits(ops[j], id)
  }

  /** In every interleaving in which no discard takes back an uncollected answer: if any answer to a question
      is accepted, the waiter returns exactly that answer, and if the waiter returns without an answer then
      no answer ever was or will be accepted. */
  lemma RendezvousAgrees(ops: seq<Op>, id: string, c: nat, w: nat, i: nat)
    requires AskedOnce(ops, id, c, w) && DiscardsAreHarmless(map[], ops, id)
    ensures Wins(map[], ops, id, i) ==> c < i < w && ReplyAt(map[], ops, w) == WaitReply(Answered, Some(ops[i].answer))
    ensures ReplyAt(map[], ops, w) == WaitReply(Expired, None) || exists a: nat :: a < w && Wins(map[], ops, id, a)
  {
    hide Do, ReplyAt, Table';
    var q := Table'(map[], ops, c);
    var rest := ops[c..];
    BeforeCreation(map[], ops, id, c, i);
    BeforeCreation(map[], ops, id, c, w);
    var asked, tail := Do(q, ops[c]).0, ops[c + 1..];
    CreationOpens(q, ops[c], id);
    assert rest[1..] == tail && rest[0] == ops[c];
    assert forall j :: 0 <= j < |tail| ==> tail[j] == ops[c + 1 + j];
    ShiftReply(q, rest, w - c);
    OpenAgrees(asked, tail, id, w - c - 1, if i > c then i - c - 1 else 0);
    if c < i < |ops| {
      ShiftReply(q, rest, i - c);
    }
    if exists a: nat :: a < w - c - 1 && Wins(asked, tail, id, a) {
      var a: nat :| a < w - c - 1 && Wins(asked, tail, id, a);
      BeforeCreation(map[], ops, id, c, a + c + 1);
      ShiftReply(q, rest, a + 1);
      assert Wins(map[], ops, id, a + c + 1);
    }
  }

  /** Once a question is gone or no longer pending, no answer to it is accepted. */
  lemma {:induction false} SettledStaysSettled(p: Table, ops: seq<Op>, id: string, i: nat)
    requires NeverCreated(ops, id) && i < |ops|
    requires id in p ==> !p[id].status.Pending?
    ensures !Wins(p, ops, id, i)
    decreases i
  {
    if i > 0 {
      assert !Creates(ops[0], id);
      ShiftReply(p, ops, i);
      ShiftNeverCreated(ops, id);
      SettledStaysSettled(Do(p, ops[0]).0, ops[1..], id, i - 1);
    }
  }

  /** At most one answer to a question is ever accepted, whatever is discarded. */
  lemma {:induction false} OneAnswerWins(p: Table, ops: seq<Op>, id: string, i: nat, j: nat)
    requires NeverCreated(ops, id) && i <= j
    requires Wins(p, ops, id, i) && Wins(p, ops, id, j)
    ensures i == j
    decreases i
  {
    ShiftNeverCreated(ops, id);
    if j > 0 {
      ShiftReply(p, ops, j);
    }
    if i > 0 {
      ShiftReply(p, ops, i);
      OneAnswerWins(Do(p, ops[0]).0, ops[1..], id, i - 1, j - 1);
    } else if j > 0 {
      SettledStaysSettled(Do(p, ops[0]).0, ops[1..], id, j - 1);
    }
  }

  /** So over a whole interleaving at most one answer to a question is accepted. */
  lemma AtMostOneAccepted(ops: seq<Op>, id: string, c: nat, i: nat, j: nat)
    requires c < |ops| && Creates(ops[c], id) && NeverCreated(ops[..c], id) && NeverCreated(ops[c + 1..], id)
    requires Wins(map[], ops, id, i) && Wins(map[], ops, id, j)
    ensures i == j > c
  {
    hide Do, Table', Wins, NeverCreated, Creates;
    WinsAfterCreation(ops, id, c, i);
    WinsAfterCreation(ops, id, c, j);
    var asked := Do(Table'(map[], ops, c), ops[c]).0;
    if i <= j {
      OneAnswerWins(asked, ops[c + 1..], id, i - c - 1, j - c - 1);
    } else {
      OneAnswerWins(asked, ops[c + 1..], id, j - c - 1, i - c - 1);
    }
  }

  lemma WinsAfterCreation(ops: seq<Op>, id: string, c: nat, i: nat)
    requires c < |ops| && Creates(ops[c], id) && NeverCreated(ops[..c], id)
    requires Wins(map[], ops, id, i)
    ensures i > c && Wins(Do(Table'(map[], ops, c), ops[c]).0, ops[c + 1..], id, i - c - 1)
  {
    hide Do, Table';
    var q := Table'(map[], ops, c);
    var rest := ops[c..];
    BeforeCreation(map[], ops, id, c, i);
    assert rest[0] == ops[c] && rest[1..] == ops[c + 1..] && rest[i - c] == ops[i];
    ShiftReply(q, rest, i - c);
  }

  // ---------- timely answers ----------

  /** The deadline of a question is its creation plus the timeout, for its own owner and session: an answer directly
      after the creation is accepted exactly before it. */
  lemma TimelyAnswerIsAccepted(p: Table, id: string, session: string, owner: string, question: string,
                               choices: seq<string>, timeout: int, now: int, bySession: string, byOwner: string,
                               answer: string, at: int)
    ensures var asked := Do(p, CreateOp(id, session, owner, question, choices, timeout, now)).0;
            Do(asked, AnswerOp(id, bySession, byOwner, answer, at)).1
            == AnswerReply(if bySession != session || byOwner != owner then NotFound
                           else if at < now + timeout then Accepted else TooLate)
  {
  }

  /** `op` leaves the open question `id` of `item` as it is: it neither discards, collects nor expires it, and is no
      answer of its owner. */
  predicate LeavesOpen(op: Op, id: string, item: Item) {
    match op
    case CreateOp(other, _, _, _, _, _, _) => other != id
    case DiscardOp(other) => other != id
    case WaitOp(other) => other != id
    case ExpireSessionOp(session, owner) => !Owns(item, session, owner)
    case AnswerOp(other, session, owner, _, _) => other != id || !Owns(item, session, owner)
  }

  lemma {:induction false} StillOpen(p: Table, ops: seq<Op>, id: string, i: nat)
    requires id in p && p[id].status.Pending? && i < |ops|
    requires forall j :: 0 <= j < i ==> LeavesOpen(ops[j], id, p[id])
    ensures id in Table'(p, ops, i) && Table'(p, ops, i)[id] == p[id]
    ensures ReplyAt(p, ops, i) == Do(Table'(p, ops, i), ops[i]).1
    decreases i
  {
    if i > 0 {
      assert LeavesOpen(ops[0], id, p[id]);
      assert forall j :: 0 <= j < i - 1 ==> ops[1..][j] == ops[j + 1];
      ShiftReply(p, ops, i);
      StillOpen(Do(p, ops[0]).0, ops[1..], id, i - 1);
    }
  }

  /** In every interleaving, the first answer of the owner to a question that was neither discarded, collected nor
      expired before is accepted exactly if it comes before the deadline. */
  lemma FirstTimelyAnswerWins(ops: seq<Op>, id: string, c: nat, i: nat)
    requires c < i < |ops| && Creates(ops[c], id) && NeverCreated(ops[..c], id)
    requires Answers(ops[i], id) && ops[i].session == ops[c].session && ops[i].owner == ops[c].owner
    requires forall j :: c < j < i ==> LeavesOpen(ops[j], id, NewItem(ops[c]))
    ensures ReplyAt(map[], ops, i)
         == AnswerReply(if ops[i].now < ops[c].now + ops[c].timeout then Accepted else TooLate)
  {
    hide Do, ReplyAt, Table';
    var q, rest, tail := Table'(map[], ops, c), ops[c..], ops[c + 1..];
    assert rest[0] == ops[c] && rest[1..] == tail && tail[i - c - 1] == ops[i];
    BeforeCreation(map[], ops, id, c, i);
    ShiftReply(q, rest, i - c);
    assert forall j :: 0 <= j < |tail| ==> tail[j] == ops[c + 1 + j];
    var asked := Do(q, ops[c]).0;
    CreatedIsNewItem(q, ops[c], id);
    StillOpen(asked, tail, id, i - c - 1);
    AnswerWhileOpen(Table'(asked, tail, i - c - 1), ops[c], ops[i], id);
  }

  lemma CreatedIsNewItem(p: Table, op: Op, id: string)
    requires Creates(op, id)
    ensures id in Do(p, op).0 && Do(p, op).0[id] == NewItem(op) && NewItem(op).status.Pending?
  {
  }

  lemma AnswerWhileOpen(p: Table, creation: Op, op: Op, id: string)
    requires Creates(creation, id) && Answers(op, id) && id in p && p[id] == NewItem(creation)
    requires op.session == creation.session && op.owner == creation.owner
    ensures Do(p, op).1 == AnswerReply(if op.now < creation.now + creation.timeout then Accepted else TooLate)
  {
  }

  // ---------- what discards cost ----------

  /** A discard can no longer take an answer back once the question is gone or expired. */
  lemma {:induction false} DeadHasNothingToLose(p: Table, ops: seq<Op>, id: string)
    requires NeverCreated(ops, id) && (id in p ==> p[id].status.Expired?)
    ensures DiscardsAreHarmless(p, ops, id)
    decreases |ops|
  {
    if ops != [] {
      assert !Creates(ops[0], id);
      ShiftNeverCreated(ops, id);
      DeadHasNothingToLose(Do(p, ops[0]).0, ops[1..], id);
    }
  }

  /** If some discard takes back an uncollected answer, the waiter is told that the question expired. */
  lemma {:induction false} HarmfulDiscardLoses(p: Table, ops: seq<Op>, id: string, w: nat)
    requires NeverCreated(ops, id) && !DiscardsAreHarmless(p, ops, id)
    requires w < |ops| && Waits(ops[w], id) && forall j :: 0 <= j < w ==> !Waits(ops[j], id)
    ensures ReplyAt(p, ops, w) == WaitReply(Expired, None)
    decreases |ops|
  {
    var q, rest := Do(p, ops[0]).0, ops[1..];
    ShiftNeverCreated(ops, id);
    if w == 0 {
      DeadHasNothingToLose(q, rest, id);
      assert false;
    } else {
      ShiftReply(p, ops, w);
      assert forall j :: 0 <= j < w - 1 ==> rest[j] == ops[j + 1];
      if DiscardsAreHarmless(q, rest, id) {
        DeadStaysDead(q, rest, id, w - 1);
      } else {
        HarmfulDiscardLoses(q, rest, id, w - 1);
      }
    }
  }

  /** Exactly when an accepted answer is lost, over every interleaving: the waiter returns the answer that was
      accepted if and only if no discard takes it back before the waiter has collected it. */
  lemma DiscardLosesExactly(ops: seq<Op>, id: string, c: nat, w: nat, i: nat)
    requires AskedOnce(ops, id, c, w) && Wins(map[], ops, id, i)
    ensures ReplyAt(map[], ops, w) == WaitReply(Answered, Some(ops[i].answer)) <==> DiscardsAreHarmless(map[], ops, id)
  {
    if DiscardsAreHarmless(map[], ops, id) {
      RendezvousAgrees(ops, id, c, w, i);
    } else {
      AskedDiscardLoses(ops, id, c, w);
    }
  }

  lemma AskedDiscardLoses(ops: seq<Op>, id: string, c: nat, w: nat)
    requires AskedOnce(ops, id, c, w) && !DiscardsAreHarmless(map[], ops, id)
    ensures ReplyAt(map[], ops, w) == WaitReply(Expired, None)
  {
    var q, rest, tail := Table'(map[], ops, c), ops[c..], ops[c + 1..];
    assert rest[1..] == tail && rest[0] == ops[c];
    CreationIsNoDiscard(q, rest, id);
    FirstWaitAfterCreation(ops, id, c, w);
    hide Do, ReplyAt, Table', DiscardsAreHarmless, NeverCreated, Creates, Waits;
    BeforeCreation(map[], ops, id, c, w);
    ShiftReply(q, rest, w - c);
    HarmfulDiscardLoses(Do(q, ops[c]).0, tail, id, w - c - 1);
  }

  lemma FirstWaitAfterCreation(ops: seq<Op>, id: string, c: nat, w: nat)
    requires AskedOnce(ops, id, c, w)
    ensures var tail := ops[c + 1..];
            && w - c - 1 < |tail| && Waits(tail[w - c - 1], id)
            && forall j :: 0 <= j < w - c - 1 ==> !Waits(tail[j], id)
  {
    var tail := ops[c + 1..];
    assert forall j :: 0 <= j < |tail| ==> tail[j] == ops[c + 1 + j];
  }

  lemma CreationIsNoDiscard(p: Table, ops: seq<Op>, id: string)
    requires ops != [] && ops[0].CreateOp?
    ensures DiscardsAreHarmless(p, ops, id) <==> DiscardsAreHarmless(Do(p, ops[0]).0, ops[1..], id)
  {
  }
}
