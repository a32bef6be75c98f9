/** How many copies of an alert one send brings to the user: the client's retry loop as protocol moves. */
module AlertPosts {
  import opened AlertProtocol
  import opened TelegramCall

  /** `accepted[i]` says that post `i` put the message into the chat, whatever became of its answer. */
  predicate Plausible<T>(script: seq<Response<T>>, accepted: seq<bool>) {
    && |accepted| == |script|
    && forall i :: 0 <= i < |script| ==>
         (Success(script[i]) ==> accepted[i]) && (script[i].Http? && 400 <= script[i].status < 500 ==> !accepted[i])
  }

  function Copies(accepted: seq<bool>, n: nat): nat
    requires n <= |accepted|
  {
    if n == 0 then 0 else Copies(accepted, n - 1) + if accepted[n - 1] then 1 else 0
  }

  lemma {:induction false} CopiesAreFewer(accepted: seq<bool>, n: nat)
    requires n <= |accepted|
    ensures Copies(accepted, n) <= n
  {
    if n == 0 {
    } else {
      CopiesAreFewer(accepted, n - 1);
    }
  }

  lemma {:induction false} NoCopies(accepted: seq<bool>, n: nat)
    requires n <= |accepted|
    ensures Copies(accepted, n) == 0 <==> forall i :: 0 <= i < n ==> !accepted[i]
  {
    if n == 0 {
    } else {
      NoCopies(accepted, n - 1);
    }
  }

  /** The answer to this post says nothing about whether the message arrived. */
  predicate AnswerLost<T>(r: Response<T>) {
    r.NetworkError? || r.status >= 500
  }

  /**
   * A message arrives at most once per post, and at least once if the call returns; a copy beyond that
   * is one whose answer was a network error or a server error, and there is one exactly if that happened.
   */
  lemma CopiesOfOneCall<T>(script: seq<Response<T>>, accepted: seq<bool>, attempts: nat, posts: nat, reply: Reply<T>)
    requires |script| >= attempts && Plausible(script, accepted) && Concluded(script, attempts, posts, reply)
    ensures Copies(accepted, posts) <= posts <= attempts
    ensures reply.Result? ==> Copies(accepted, posts) >= 1
    ensures forall i :: 0 <= i < posts - 1 && accepted[i] ==> AnswerLost(script[i])
    ensures reply.Result? ==>
              (Copies(accepted, posts) == 1 <==> forall i :: 0 <= i < posts - 1 ==> !accepted[i])
  {
    CopiesAreFewer(accepted, posts);
    if posts > 0 {
      NoCopies(accepted, posts - 1);
    }
  }

  // --- the call as moves ---------------------------------------------------------------------

  predicate Posting(p: Protocol, posts: nat) {
    p.phase.Sending? && p.phase.more >= posts && p.cell.mem.Some?
  }

  /** The first `n` posts, none of which got an answer that ends the call. */
  function Posted(name: string, p: Protocol, accepted: seq<bool>, n: nat): (q: Protocol)
    requires n <= |accepted| && Posting(p, n)
    ensures q.phase == Sending(p.phase.kind, p.phase.more - n) && q.cell.mem == p.cell.mem
  {
    if n == 0 then p else Do(name, Posted(name, p, accepted, n - 1), PostAgain(accepted[n - 1]))
  }

  /** A saved check lets its client post the message three times at most. */
  lemma CallFitsExactlyIfShort(name: string, p: Protocol, attempts: nat)
    requires Can(p, Save) && Do(name, p, Save).phase.Sending? && attempts > 0
    ensures Posting(Do(name, p, Save), attempts - 1) <==> attempts <= 3
  {
  }

  /** The whole call: the last post is answered, or the call raises. */
  function Sent<T>(name: string, p: Protocol, accepted: seq<bool>, posts: nat, reply: Reply<T>): Protocol
    requires 0 < posts <= |accepted| && Posting(p, posts - 1)
  {
    var q := Posted(name, p, accepted, posts - 1);
    Do(name, q, if reply.Result? then Send else SendRaises(accepted[posts - 1]))
  }

  function Times(a: Alert, n: nat): seq<Alert> {
    if n == 0 then [] else Times(a, n - 1) + [a]
  }

  lemma PostAgainAddsCopy(name: string, p: Protocol, accepted: bool)
    requires Can(p, PostAgain(accepted))
    ensures var q := Do(name, p, PostAgain(accepted));
            && AlertFor(q.cell, q.phase.kind) == AlertFor(p.cell, p.phase.kind)
            && q.cell.log == p.cell.log + Times(AlertFor(p.cell, p.phase.kind), if accepted then 1 else 0)
            && q.cell.faults == p.cell.faults + if accepted then 1 else 0
  {
  }

  lemma LastPostAddsCopy(name: string, p: Protocol, succeeds: bool, accepted: bool)
    requires Can(p, Send) && (succeeds ==> accepted)
    ensures var q := Do(name, p, if succeeds then Send else SendRaises(accepted));
            && q.phase == (if succeeds then Marking else Idle)
            && q.cell.log == p.cell.log + Times(AlertFor(p.cell, p.phase.kind), if accepted then 1 else 0)
            && q.cell.faults + (if succeeds then 1 else 0) == p.cell.faults + if accepted then 1 else 0
  {
  }

  lemma {:induction false} TimesAddUp(a: Alert, m: nat, n: nat)
    ensures Times(a, m) + Times(a, n) == Times(a, m + n)
  {
    if n == 0 {
    } else {
      TimesAddUp(a, m, n - 1);
      assert Times(a, m) + Times(a, n) == Times(a, m) + Times(a, n - 1) + [a];
    }
  }

  lemma {:induction false} PostsAddCopies(name: string, p: Protocol, accepted: seq<bool>, n: nat)
    requires n <= |accepted| && Posting(p, n)
    ensures var q, a := Posted(name, p, accepted, n), AlertFor(p.cell, p.phase.kind);
            && AlertFor(q.cell, q.phase.kind) == a
            && q.cell.log == p.cell.log + Times(a, Copies(accepted, n))
            && q.cell.faults == p.cell.faults + Copies(accepted, n)
  {
    if n > 0 {
      var a := AlertFor(p.cell, p.phase.kind);
      PostsAddCopies(name, p, accepted, n - 1);
      PostAgainAddsCopy(name, Posted(name, p, accepted, n - 1), accepted[n - 1]);
      AppendTimes(p.cell.log, a, Copies(accepted, n - 1), if accepted[n - 1] then 1 else 0);
    } else {
      assert p.cell.log + [] == p.cell.log;
    }
  }

  lemma AppendTimes(log: seq<Alert>, a: Alert, m: nat, n: nat)
    ensures log + Times(a, m) + Times(a, n) == log + Times(a, m + n)
  {
    TimesAddUp(a, m, n);
    assert log + Times(a, m) + Times(a, n) == log + (Times(a, m) + Times(a, n));
  }

  /**
   * A call of at most `attempts` posts, as the alert protocol sees it: the log gains exactly the copies
   * that were accepted, and each of them but the one that is marked counts as a fault.
   */
  lemma CallIsSends<T>(name: string, p: Protocol, script: seq<Response<T>>, accepted: seq<bool>, attempts: nat,
                       posts: nat, reply: Reply<T>)
    requires |script| >= attempts > 0 && Plausible(script, accepted) && Concluded(script, attempts, posts, reply)
    requires Posting(p, attempts - 1)
    ensures posts > 0
    ensures var q, n := Sent(name, p, accepted, posts, reply), Copies(accepted, posts);
            && q.phase == (if reply.Result? then Marking else Idle)
            && q.cell.log == p.cell.log + Times(AlertFor(p.cell, p.phase.kind), n)
            && q.cell.faults + (if reply.Result? then 1 else 0) == p.cell.faults + n
  {
    var r, last := Posted(name, p, accepted, posts - 1), accepted[posts - 1];
    PostsAddCopies(name, p, accepted, posts - 1);
    LastPostAddsCopy(name, r, reply.Result?, last);
    AppendTimes(p.cell.log, AlertFor(p.cell, p.phase.kind), Copies(accepted, posts - 1), if last then 1 else 0);
  }
}
