/** PerMessage.h as a whole: listenOnSocket turns every datagram into a job for the pool, and a job takes
    its datagram up the stack.  Nothing is promised about the order. */
module MessagePool {
  import opened Headers
  import opened Stack
  import opened ThreadPools

  /** What became of each of these datagrams. */
  function Outcomes(frames: seq<Bytes>): seq<Outcome> {
    seq(|frames|, i requires 0 <= i < |frames| => PerMessageReceive(frames[i]))
  }

  lemma OutcomesConcat(a: seq<Bytes>, b: seq<Bytes>)
    ensures Outcomes(a + b) == Outcomes(a) + Outcomes(b)
  {
  }

  lemma OneMore(a: seq<Bytes>, x: Bytes, b: seq<Bytes>)
    ensures multiset(Outcomes(a + [x] + b)) == multiset(Outcomes(a + b)) + multiset{PerMessageReceive(x)}
    ensures multiset(a + [x] + b) == multiset(a + b) + multiset{x}
  {
    OutcomesConcat(a + [x], b);
    OutcomesConcat(a, [x]);
    OutcomesConcat(a, b);
    assert Outcomes([x]) == [PerMessageReceive(x)];
  }

  /** The same datagrams in another order have the same outcomes in another order. */
  lemma {:induction false} OutcomesPermute(xs: seq<Bytes>, ys: seq<Bytes>)
    requires multiset(xs) == multiset(ys)
    ensures multiset(Outcomes(xs)) == multiset(Outcomes(ys))
    decreases |xs|
  {
    if xs == [] {
      assert |multiset(ys)| == |ys| == 0;
    } else {
      var n, x := |xs| - 1, xs[|xs| - 1];
      assert x in multiset(ys);
      var i :| 0 <= i < |ys| && ys[i] == x;
      var before, after := ys[..i], ys[i + 1..];
      assert ys == before + [x] + after;
      assert xs == xs[..n] + [x] + [];
      assert xs[..n] + [] == xs[..n];
      OneMore(xs[..n], x, []);
      OneMore(before, x, after);
      assert multiset(xs[..n]) == multiset(xs) - multiset{x};
      assert multiset(before + after) == multiset(ys) - multiset{x};
      OutcomesPermute(xs[..n], before + after);
    }
  }

  function OnlyDelivered(os: seq<Outcome>): seq<Outcome> {
    if os == [] then []
    else
      var n := |os| - 1;
      OnlyDelivered(os[..n]) + if os[n].Delivered? then [os[n]] else []
  }

  lemma CountAppend(xs: seq<Outcome>, ys: seq<Outcome>, o: Outcome)
    ensures multiset(xs + ys)[o] == multiset(xs)[o] + multiset(ys)[o]
  {
  }

  lemma {:induction false} OnlyDeliveredCount(os: seq<Outcome>, o: Outcome)
    ensures multiset(OnlyDelivered(os))[o] == if o.Delivered? then multiset(os)[o] else 0
  {
    if os != [] {
      var n := |os| - 1;
      var last := if os[n].Delivered? then [os[n]] else [];
      OnlyDeliveredCount(os[..n], o);
      CountAppend(OnlyDelivered(os[..n]), last, o);
      CountAppend(os[..n], [os[n]], o);
      assert os == os[..n] + [os[n]];
    }
  }

  /** What a datagram delivers, read off its first 4096 bytes: the message behind the headers, if these name an
      application and the message fits its buffer. */
  function Letter(frame: Bytes): seq<Outcome> {
    var kept := if |frame| <= 4096 then frame else frame[..4096];
    if Addressee(kept) == [] then []
    else
      var rest := AfterAppHeader(Addressee(kept)[0], Inside(kept));
      if |rest| > FRAME_BUFFER then [] else [Delivered(Addressee(kept)[0], rest)]
  }

  function Letters(frames: seq<Bytes>): seq<Outcome> {
    if frames == [] then [] else Letters(frames[..|frames| - 1]) + Letter(frames[|frames| - 1])
  }

  /** A well-formed datagram is a letter to its application. */
  lemma WellFormedIsLetter(a: App, payload: Bytes, frame: Bytes)
    requires Carries(4, a, payload, frame) && |payload| <= MaxPayload(a)
    ensures Letter(frame) == [Delivered(a, payload)]
  {
    ReceiversDeliver(a, payload, frame);
    LetterIsDelivered(frame);
  }

  lemma LetterIsDelivered(frame: Bytes)
    ensures Letter(frame) == if PerMessageReceive(frame).Delivered? then [PerMessageReceive(frame)] else []
  {
    AddresseeDecides(if |frame| <= BUFSIZE then frame else frame[..BUFSIZE]);
  }

  lemma {:induction false} LettersAreDelivered(frames: seq<Bytes>)
    ensures Letters(frames) == OnlyDelivered(Outcomes(frames))
  {
    if frames != [] {
      var n := |frames| - 1;
      LettersAreDelivered(frames[..n]);
      LetterIsDelivered(frames[n]);
      assert Outcomes(frames)[..n] == Outcomes(frames[..n]);
    }
  }

  /** At every moment of every run, whatever was received and also during shutdown: the datagrams whose jobs
      are finished, running or queued are those received, each as often as it was received.  So what
      has been delivered and what still will be are exactly the letters received, in some order, and the
      other datagrams deliver nothing. */
  lemma DeliversAtEveryMoment(threadCount: nat, steps: seq<Step<Bytes>>)
    requires CanRun(Initial(threadCount), steps)
    ensures var s := Run(Initial(threadCount), steps);
            var all := Outcomes(s.finished) + Outcomes(RunningJobs(s.workers)) + Outcomes(s.jobs);
            && multiset(all) == multiset(Outcomes(s.dispatched))
            && multiset(OnlyDelivered(all)) == multiset(Letters(s.dispatched))
  {
    var s := Run(Initial(threadCount), steps);
    InitialInv<Bytes>(threadCount);
    RunInv(Initial(threadCount), steps);
    NothingLost(s);
    OutcomesPermute(s.finished + RunningJobs(s.workers) + s.jobs, s.dispatched);
    OutcomesConcat(s.finished + RunningJobs(s.workers), s.jobs);
    OutcomesConcat(s.finished, RunningJobs(s.workers));
    SameDelivered(Outcomes(s.finished) + Outcomes(RunningJobs(s.workers)) + Outcomes(s.jobs), s.dispatched);
  }

  lemma SameDelivered(all: seq<Outcome>, frames: seq<Bytes>)
    requires multiset(all) == multiset(Outcomes(frames))
    ensures multiset(OnlyDelivered(all)) == multiset(Letters(frames))
  {
    LettersAreDelivered(frames);
    forall o ensures multiset(OnlyDelivered(all))[o] == multiset(Letters(frames))[o] {
      OnlyDeliveredCount(all, o);
      OnlyDeliveredCount(Outcomes(frames), o);
    }
  }

  /** Whatever the pool's workers did in whatever order, once they have come to rest the applications
      have got exactly the letters that were received, each as often as it was received. */
  lemma DeliversPermutation(threadCount: nat, steps: seq<Step<Bytes>>)
    requires threadCount > 0 && CanRun(Initial(threadCount), steps)
    requires var s := Run(Initial(threadCount), steps); Quiescent(s) && !s.terminate
    ensures var s := Run(Initial(threadCount), steps);
            multiset(OnlyDelivered(Outcomes(s.finished))) == multiset(Letters(s.dispatched))
  {
    var s := Run(Initial(threadCount), steps);
    InitialInv<Bytes>(threadCount);
    RunInv(Initial(threadCount), steps);
    RestMeansDone(s);
    OutcomesPermute(s.finished, s.dispatched);
    SameDelivered(Outcomes(s.finished), s.dispatched);
  }
}
