/** The pending-call table of share/rpc/client.go for one connection. A step is one critical section, or one
    stretch of code in which only the acting goroutine can touch the call it holds; any interleaving of senders,
    the read loop and Close is a sequence of steps. */
module RpcClient {

  type CallId = nat

  /** How a call ends. */
  datatype Outcome = Refused | WriteError | Reply(seqNo: nat) | ConnectionLost

  /** Who holds the `sending` lock. */
  datatype Sender = Free | Writing(seqNo: nat) | Failing(call: CallId)

  datatype Reader = Listening | Holding(call: CallId, seqNo: nat) | Ending | Ended

  /** `completed` is what each call's Done channel has been sent; `seqOf` remembers the number a call went out under. */
  datatype Client = Client(seqNo: nat, pending: map<nat, CallId>, closing: bool, shutdown: bool, connected: bool,
                           sender: Sender, reader: Reader, completed: map<CallId, seq<Outcome>>,
                           seqOf: map<CallId, nat>)

  const START := Client(1, map[], false, false, true, Free, Listening, map[], map[])

  function Complete(c: Client, call: CallId, o: Outcome): Client
    requires call in c.completed
  {
    c.(completed := c.completed[call := c.completed[call] + [o]])
  }

  datatype Event =
    | Send(call: CallId)
    | WriteDone
    | WriteFailed
    | FailDone
    | ReplyTaken(seqNo: nat)
    | ReplyDone
    | ReadFailed
    | Terminate
    | Close

  /** Each step is enabled only where the code can be: the sending lock is free for a new send and for the final
      sweep, the read loop does one thing at a time, and a call is handed to send once. */
  predicate Enabled(c: Client, e: Event) {
    match e
    case Send(call) => c.sender == Free && call !in c.completed
    case WriteDone => c.sender.Writing?
    case WriteFailed => c.sender.Writing?
    case FailDone => c.sender.Failing? && c.sender.call in c.completed
    case ReplyTaken(s) => c.reader == Listening
    case ReplyDone => c.reader.Holding? && c.reader.call in c.completed
    case ReadFailed => c.reader == Listening
    case Terminate => c.reader == Ending && c.sender == Free
    case Close => true
  }

  /** The sweep over the pending table at the end of the read loop. */
  function Swept(c: Client): map<CallId, seq<Outcome>> {
    map call | call in c.completed ::
      if call in c.pending.Values then c.completed[call] + [ConnectionLost] else c.completed[call]
  }

  function Step(c: Client, e: Event): Client
    requires Enabled(c, e)
  {
    match e
    case Send(call) =>
      var known := c.(completed := c.completed[call := []]);
      if c.shutdown || c.closing || !c.connected then Complete(known, call, Refused)
      else known.(seqNo := c.seqNo + 1, pending := c.pending[c.seqNo := call], sender := Writing(c.seqNo),
                  seqOf := c.seqOf[call := c.seqNo])
    case WriteDone => c.(sender := Free)
    case WriteFailed =>
      var s := c.sender.seqNo;
      if s in c.pending then c.(pending := c.pending - {s}, sender := Failing(c.pending[s])) else c.(sender := Free)
    case FailDone => Complete(c, c.sender.call, WriteError).(sender := Free)
    case ReplyTaken(s) =>
      if s in c.pending then c.(pending := c.pending - {s}, reader := Holding(c.pending[s], s)) else c
    case ReplyDone => Complete(c, c.reader.call, Reply(c.reader.seqNo)).(reader := Listening)
    case ReadFailed => c.(reader := Ending)
    case Terminate => c.(shutdown := true, connected := false, completed := Swept(c), reader := Ended)
    case Close => if c.shutdown || c.closing then c else c.(closing := true)
  }

  predicate Possible(c: Client, es: seq<Event>)
    decreases |es|
  {
    es == [] || (Enabled(c, es[0]) && Possible(Step(c, es[0]), es[1..]))
  }

  function Run(c: Client, es: seq<Event>): Client
    requires Possible(c, es)
    decreases |es|
  {
    if es == [] then c else Run(Step(c, es[0]), es[1..])
  }

  // --- Every call is in exactly one place. ---

  predicate InHand(c: Client, call: CallId) {
    (c.reader.Holding? && c.reader.call == call) || (c.sender.Failing? && c.sender.call == call)
  }

  /** A call still owed its completion: waiting in the table of a live connection, or in a goroutine's hand. */
  predicate Owed(c: Client, call: CallId) {
    (c.reader != Ended && call in c.pending.Values) || InHand(c, call)
  }

  predicate PendingOk(c: Client) {
    && (forall s :: s in c.pending ==> s < c.seqNo && c.pending[s] in c.seqOf && c.seqOf[c.pending[s]] == s
                                       && c.pending[s] in c.completed && !InHand(c, c.pending[s]))
  }

  predicate HandsOk(c: Client) {
    && (c.reader.Holding? ==>
        c.reader.call in c.seqOf && c.seqOf[c.reader.call] == c.reader.seqNo && c.reader.call in c.completed)
    && (c.sender.Failing? ==> c.sender.call in c.completed)
    && (c.reader.Holding? && c.sender.Failing? ==> c.reader.call != c.sender.call)
  }

  /** Completed once if no longer owed, not at all while owed; a reply only ever under the call's own number. */
  predicate CallOk(c: Client, call: CallId)
    requires call in c.completed
  {
    && |c.completed[call]| == (if Owed(c, call) then 0 else 1)
    && forall o :: o in c.completed[call] && o.Reply? ==> call in c.seqOf && c.seqOf[call] == o.seqNo
  }

  predicate Invariant(c: Client) {
    && PendingOk(c) && HandsOk(c)
    && (c.shutdown <==> c.reader == Ended)
    && (c.reader == Ended ==> !c.sender.Writing?)
    && (forall call :: call in c.completed ==> CallOk(c, call))
    && (forall call :: call in c.seqOf ==> call in c.completed)
  }

  lemma InTable(c: Client, s: nat)
    requires s in c.pending
    ensures c.pending[s] in c.pending.Values
  {
  }

  lemma SendKeeps(c: Client, call: CallId)
    requires Invariant(c) && Enabled(c, Send(call))
    ensures Invariant(Step(c, Send(call)))
  {
    var c' := Step(c, Send(call));
    if c'.sender.Writing? {
      InTable(c', c.seqNo);
      forall k | k in c'.completed ensures CallOk(c', k) {
        if k != call {
          assert CallOk(c, k);
          StillPending(c, c', k);
        }
      }
    } else {
      forall k | k in c'.completed ensures CallOk(c', k) {
        if k != call {
          assert CallOk(c, k);
        }
      }
    }
  }

  /** Adding another call's row changes nobody else's standing. */
  lemma StillPending(c: Client, c': Client, k: CallId)
    requires c.seqNo !in c.pending && c.seqNo in c'.pending && c'.pending == c.pending[c.seqNo := c'.pending[c.seqNo]]
      && k != c'.pending[c.seqNo]
    ensures k in c'.pending.Values <==> k in c.pending.Values
  {
    if k in c.pending.Values {
      var s :| s in c.pending && c.pending[s] == k;
      assert c'.pending[s] == k;
    }
  }

  /** Taking a row out of the table leaves every other call where it was. */
  lemma TakenOut(c: Client, s: nat, k: CallId)
    requires PendingOk(c) && s in c.pending
    ensures k in (c.pending - {s}).Values <==> k in c.pending.Values && k != c.pending[s]
  {
    var rest := c.pending - {s};
    if k in c.pending.Values && k != c.pending[s] {
      var q :| q in c.pending && c.pending[q] == k;
      assert q in rest && rest[q] == k;
    }
    if k in rest.Values {
      var q :| q in rest && rest[q] == k;
      assert c.pending[q] == k;
    }
  }

  lemma TakeKeeps(c: Client, e: Event)
    requires Invariant(c) && Enabled(c, e) && (e.WriteFailed? || e.ReplyTaken?)
    ensures Invariant(Step(c, e))
  {
    var c' := Step(c, e);
    var s := if e.ReplyTaken? then e.seqNo else c.sender.seqNo;
    if s in c.pending {
      InTable(c, s);
      forall k | k in c'.completed ensures CallOk(c', k) {
        assert CallOk(c, k);
        TakenOut(c, s, k);
      }
    } else {
      forall k | k in c'.completed ensures CallOk(c', k) {
        assert CallOk(c, k);
      }
    }
  }

  lemma HandDoneKeeps(c: Client, e: Event)
    requires Invariant(c) && Enabled(c, e) && (e.FailDone? || e.ReplyDone?)
    ensures Invariant(Step(c, e))
  {
    var c' := Step(c, e);
    var call := if e.FailDone? then c.sender.call else c.reader.call;
    assert call !in c.pending.Values;
    forall k | k in c'.completed ensures CallOk(c', k) {
      assert CallOk(c, k);
    }
  }

  lemma TerminateKeeps(c: Client)
    requires Invariant(c) && Enabled(c, Terminate)
    ensures Invariant(Step(c, Terminate))
  {
    var c' := Step(c, Terminate);
    forall k | k in c'.completed ensures CallOk(c', k) {
      assert CallOk(c, k);
    }
  }

  lemma QuietKeeps(c: Client, e: Event)
    requires Invariant(c) && Enabled(c, e) && (e.WriteDone? || e.ReadFailed? || e.Close?)
    ensures Invariant(Step(c, e))
  {
    var c' := Step(c, e);
    forall k | k in c'.completed ensures CallOk(c', k) {
      assert CallOk(c, k);
    }
  }

  lemma StepKeeps(c: Client, e: Event)
    requires Invariant(c) && Enabled(c, e)
    ensures Invariant(Step(c, e))
  {
    hide Invariant, Enabled;
    match e
    case Send(call) => SendKeeps(c, call);
    case WriteDone => QuietKeeps(c, e);
    case WriteFailed => TakeKeeps(c, e);
    case FailDone => HandDoneKeeps(c, e);
    case ReplyTaken(s) => TakeKeeps(c, e);
    case ReplyDone => HandDoneKeeps(c, e);
    case ReadFailed => QuietKeeps(c, e);
    case Terminate => TerminateKeeps(c);
    case Close => QuietKeeps(c, e);
  }

  lemma {:induction false} RunKeeps(c: Client, es: seq<Event>)
    requires Invariant(c) && Possible(c, es)
    ensures Invariant(Run(c, es))
    decreases |es|
  {
    hide Invariant, Step, Enabled;
    if es != [] {
      StepKeeps(c, es[0]);
      RunKeeps(Step(c, es[0]), es[1..]);
    }
  }

  /** Every call given to send has been completed exactly once. */
  predicate AllDone(c: Client) {
    forall call :: call in c.completed ==> |c.completed[call]| == 1
  }

  /** In every interleaving from a fresh connection, no call is completed twice, a reply reaches only the call that
      went out under its number, and once the read loop has ended with no send in progress every call given to
      send has been completed exactly once. */
  lemma ExactlyOnce(es: seq<Event>)
    requires Possible(START, es)
    ensures var c := Run(START, es);
            && (forall call :: call in c.completed ==> |c.completed[call]| <= 1)
            && (forall call, s :: call in c.completed && c.completed[call] == [Reply(s)] ==>
                  call in c.seqOf && c.seqOf[call] == s)
            && (c.reader == Ended && c.sender == Free ==> AllDone(c))
  {
    assert Invariant(START);
    RunKeeps(START, es);
    var c := Run(START, es);
    forall call | call in c.completed ensures CallOk(c, call) {
    }
    forall call, s | call in c.completed && c.completed[call] == [Reply(s)]
      ensures call in c.seqOf && c.seqOf[call] == s
    {
      assert CallOk(c, call) && Reply(s) in c.completed[call];
    }
  }

  // --- Which outcome a call gets. ---

  /** What this step decides for a call: refused when it is handed to a client that is shut, failed when its request
      could not be written, answered when the reply under its number is read, and lost when it is still waiting as the
      read loop ends. */
  function Verdict(c: Client, e: Event, call: CallId): seq<Outcome> {
    match e
    case Send(k) => if k == call && (c.shutdown || c.closing || !c.connected) then [Refused] else []
    case WriteFailed => if c.sender.Writing? && Waits(c, call, c.sender.seqNo) then [WriteError] else []
    case ReplyTaken(s) => if Waits(c, call, s) then [Reply(s)] else []
    case Terminate => if call in c.pending.Values then [ConnectionLost] else []
    case _ => []
  }

  predicate Waits(c: Client, call: CallId, s: nat) {
    s in c.pending && c.pending[s] == call
  }

  function Verdicts(c: Client, es: seq<Event>, call: CallId): seq<Outcome>
    requires Possible(c, es)
    decreases |es|
  {
    if es == [] then [] else Verdict(c, es[0], call) + Verdicts(Step(c, es[0]), es[1..], call)
  }

  /** What was decided for a call has reached it, or is in the hand of the goroutine that is about to deliver it. */
  predicate Served(c: Client, call: CallId, decided: seq<Outcome>) {
    if call !in c.completed then decided == []
    else if c.reader.Holding? && c.reader.call == call then
      c.completed[call] == [] && decided == [Reply(c.reader.seqNo)]
    else if c.sender.Failing? && c.sender.call == call then c.completed[call] == [] && decided == [WriteError]
    else c.completed[call] == decided
  }

  lemma WaitingHasNone(c: Client, s: nat)
    requires Invariant(c) && s in c.pending && c.reader != Ended
    ensures c.pending[s] in c.completed && c.completed[c.pending[s]] == [] && !InHand(c, c.pending[s])
  {
    InTable(c, s);
    assert CallOk(c, c.pending[s]);
  }

  lemma StepServes(c: Client, e: Event, call: CallId, decided: seq<Outcome>)
    requires Invariant(c) && Enabled(c, e) && Served(c, call, decided)
    ensures Served(Step(c, e), call, decided + Verdict(c, e, call))
  {
    HandsFilled(c);
    hide Invariant;
    if e.WriteFailed? || e.ReplyTaken? {
      TakeServes(c, e, call, decided);
    } else {
      hide HandsOk;
    }
  }

  lemma TakeServes(c: Client, e: Event, call: CallId, decided: seq<Outcome>)
    requires Invariant(c) && Enabled(c, e) && Served(c, call, decided) && (e.WriteFailed? || e.ReplyTaken?)
    ensures Served(Step(c, e), call, decided + Verdict(c, e, call))
  {
    HandsFilled(c);
    var s := if e.WriteFailed? then c.sender.seqNo else e.seqNo;
    if s in c.pending {
      WaitingHasNone(c, s);
    }
    hide Invariant, HandsOk;
    assert decided + [] == decided;
  }

  lemma HandsFilled(c: Client)
    requires Invariant(c)
    ensures HandsOk(c)
    ensures forall s :: s in c.pending ==> c.pending[s] in c.completed && !InHand(c, c.pending[s])
    ensures c.reader == Ended ==> !c.sender.Writing?
  {
  }

  lemma {:induction false} RunServes(c: Client, es: seq<Event>, call: CallId, decided: seq<Outcome>)
    requires Invariant(c) && Possible(c, es) && Served(c, call, decided)
    ensures Served(Run(c, es), call, decided + Verdicts(c, es, call))
    decreases |es|
  {
    hide Invariant, Step, Enabled, Served, Verdict;
    if es == [] {
      assert decided + [] == decided;
    } else {
      var v := Verdict(c, es[0], call);
      StepServes(c, es[0], call, decided);
      StepKeeps(c, es[0]);
      RunServes(Step(c, es[0]), es[1..], call, decided + v);
      assert decided + v + Verdicts(Step(c, es[0]), es[1..], call) == decided + Verdicts(c, es, call);
    }
  }

  lemma ServedOnce(c: Client, call: CallId, decided: seq<Outcome>)
    requires Invariant(c) && Served(c, call, decided)
    ensures |decided| <= 1
  {
    if call in c.completed {
      assert CallOk(c, call);
    }
  }

  /** In every interleaving from a fresh connection each call gets at most one verdict, and what it is completed with is
      that verdict. */
  lemma AsDecided(es: seq<Event>, call: CallId)
    requires Possible(START, es)
    ensures var c, decided := Run(START, es), Verdicts(START, es, call);
            && |decided| <= 1 && Served(c, call, decided)
            && (call in c.completed && !InHand(c, call) ==> c.completed[call] == decided)
  {
    assert Invariant(START) && Served(START, call, []);
    RunKeeps(START, es);
    RunServes(START, es, call, []);
    ServedOnce(Run(START, es), call, Verdicts(START, es, call));
    assert [] + Verdicts(START, es, call) == Verdicts(START, es, call);
    hide Invariant, Run, Verdicts, START;
  }

  /** A call waiting under a number gets the reply that is read under it: whatever comes after, that is what it has been
      completed with, or is about to be. */
  lemma ReplyDelivered(c: Client, s: nat, rest: seq<Event>)
    requires Invariant(c) && s in c.pending && Enabled(c, ReplyTaken(s)) && Possible(Step(c, ReplyTaken(s)), rest)
    ensures var call, d := c.pending[s], Run(Step(c, ReplyTaken(s)), rest);
            call in d.completed &&
            if d.reader == Holding(call, s) then d.completed[call] == [] else d.completed[call] == [Reply(s)]
  {
    var call := c.pending[s];
    WaitingHasNone(c, s);
    assert Served(c, call, []);
    var next := Step(c, ReplyTaken(s));
    StepServes(c, ReplyTaken(s), call, []);
    StepKeeps(c, ReplyTaken(s));
    assert Served(next, call, [Reply(s)]);
    hide Invariant, Step, Enabled;
    RunKeeps(next, rest);
    RunServes(next, rest, call, [Reply(s)]);
    var all := [Reply(s)] + Verdicts(next, rest, call);
    ServedOnce(Run(next, rest), call, all);
    assert all == [Reply(s)];
  }

  /** Every outcome has its cause: it is the verdict of a step of the run, on a call in the state that step found. */
  lemma {:induction false} OutcomeCaused(c: Client, es: seq<Event>, call: CallId, o: Outcome) returns (k: nat)
    requires Possible(c, es) && o in Verdicts(c, es, call)
    ensures k < |es| && Possible(c, es[..k]) && o in Verdict(Run(c, es[..k]), es[k], call)
    decreases |es|
  {
    hide Step, Enabled, Verdict;
    if o in Verdict(c, es[0], call) {
      k := 0;
    } else {
      var i := OutcomeCaused(Step(c, es[0]), es[1..], call, o);
      k := i + 1;
      assert es[..k][0] == es[0] && es[..k][1..] == es[1..][..i];
    }
  }

  /** A connection is reported lost only to calls that were waiting when the read loop ended, a failed write only to the
      call whose request was being written, and a refusal only by a client that was shut. */
  lemma OutcomeMeans(es: seq<Event>, call: CallId) returns (k: nat)
    requires Possible(START, es)
    requires var c := Run(START, es); call in c.completed && c.completed[call] != []
    ensures k < |es| && Possible(START, es[..k])
    ensures var c, was := Run(START, es), Run(START, es[..k]);
            && (c.completed[call] == [ConnectionLost] ==> es[k] == Terminate && call in was.pending.Values)
            && (c.completed[call] == [WriteError] ==>
                 es[k] == WriteFailed && was.sender.Writing? && Waits(was, call, was.sender.seqNo))
            && (c.completed[call] == [Refused] ==>
                 es[k] == Send(call) && (was.shutdown || was.closing || !was.connected))
            && (forall s :: c.completed[call] == [Reply(s)] ==> es[k] == ReplyTaken(s) && Waits(was, call, s))
  {
    hide Run, START, Invariant, Step, Enabled;
    AsDecided(es, call);
    var o := Run(START, es).completed[call][0];
    k := OutcomeCaused(START, es, call, o);
  }

  /** No call goes out any more: in every continuation a send is refused at once and leaves the table alone. */
  ghost predicate ShutFor(c: Client) {
    forall es :: Possible(c, es) ==> Refuses(Run(c, es), c.seqNo)
  }

  ghost predicate Refuses(c: Client, seqNo: nat) {
    && (c.closing || c.shutdown) && c.seqNo == seqNo
    && forall call :: Enabled(c, Send(call)) ==>
         Step(c, Send(call)).completed[call] == [Refused] && Step(c, Send(call)).pending == c.pending
  }

  lemma {:induction false} StaysShut(c: Client, es: seq<Event>)
    requires (c.closing || c.shutdown) && Possible(c, es)
    ensures Refuses(Run(c, es), c.seqNo)
    decreases |es|
  {
    if es != [] {
      StaysShut(Step(c, es[0]), es[1..]);
    }
  }

  lemma ClosedShuts(c: Client)
    requires c.closing || c.shutdown
    ensures ShutFor(c)
  {
    forall es | Possible(c, es) ensures Refuses(Run(c, es), c.seqNo) {
      StaysShut(c, es);
    }
  }

  // --- The object. ---

  class ClientObject {
    var seqNo: nat
    var pending: map<nat, CallId>
    var closing: bool
    var shutdown: bool
    var connected: bool
    /** What each Done channel has received. */
    var completed: map<CallId, seq<Outcome>>
    ghost var sender: Sender
    ghost var reader: Reader
    ghost var seqOf: map<CallId, nat>

    ghost function State(): Client
      reads this
    {
      Client(seqNo, pending, closing, shutdown, connected, sender, reader, completed, seqOf)
    }

    constructor ()
      ensures State() == START
    {
      seqNo, pending, closing, shutdown, connected, completed := 1, map[], false, false, true, map[];
      sender, reader, seqOf := Free, Listening, map[];
    }

    method Done(call: CallId, o: Outcome)
      requires call in completed
      modifies this`completed
      ensures State() == Complete(old(State()), call, o)
    {
      completed := completed[call := completed[call] + [o]];
    }

    /** The first critical section of send; `went` says the request goes on to be written. */
    method SendRegister(call: CallId) returns (went: bool, s: nat)
      requires Enabled(State(), Send(call))
      modifies this
      ensures State() == Step(old(State()), Send(call)) && (old(Invariant(State())) ==> Invariant(State()))
      ensures went == sender.Writing? && (went ==> sender == Writing(s))
      ensures went == !(old(shutdown) || old(closing) || !old(connected))
      ensures went ==> s == old(seqNo) && seqNo == s + 1 && pending == old(pending)[s := call]
    {
      if Invariant(State()) {
        StepKeeps(State(), Send(call));
      }
      hide Invariant;
      completed := completed[call := []];
      if shutdown || closing || !connected {
        Done(call, Refused);
        return false, 0;
      }
      s := seqNo;
      seqNo := seqNo + 1;
      pending := pending[s := call];
      sender, seqOf := Writing(s), seqOf[call := s];
      return true, s;
    }

    /** The write failed: the call is taken back, unless a reply or the end of the connection got there first. */
    method SendFailed(s: nat)
      requires sender == Writing(s) && Invariant(State())
      modifies this
      ensures State() == (var taken := Step(old(State()), WriteFailed);
                          if taken.sender.Failing? then Step(taken, FailDone) else taken)
      ensures Invariant(State()) && sender == Free && pending == old(pending) - {s}
      ensures completed == if s in old(pending) then old(completed)[old(pending)[s] := [WriteError]] else old(completed)
    {
      WriteLost(State(), s);
      TakenAndDone(State(), WriteFailed, FailDone);
      InvariantHas(State(), s);
      hide Invariant;
      if s in pending {
        var call := pending[s];
        pending := pending - {s};
        Done(call, WriteError);
      }
      sender := Free;
    }

    /** readResponse up to handing the reply over: looks the call up by number and removes it. */
    method ReadResponse(s: nat)
      requires reader == Listening && Invariant(State())
      modifies this
      ensures State() == (var taken := Step(old(State()), ReplyTaken(s));
                          if taken.reader.Holding? then Step(taken, ReplyDone) else taken)
      ensures Invariant(State()) && reader == Listening && pending == old(pending) - {s}
      ensures completed == if s in old(pending) then old(completed)[old(pending)[s] := [Reply(s)]] else old(completed)
    {
      Answered(State(), s);
      TakenAndDone(State(), ReplyTaken(s), ReplyDone);
      InvariantHas(State(), s);
      hide Invariant;
      if s in pending {
        var call := pending[s];
        pending := pending - {s};
        Done(call, Reply(s));
      }
    }

    /** The end of the read loop: under both locks, every call still in the table is completed. */
    method TerminatePending()
      requires Enabled(State(), Terminate) && Invariant(State())
      modifies this
      ensures State() == Step(old(State()), Terminate) && Invariant(State())
      ensures Lost(old(pending), old(completed), completed) && shutdown && !connected
    {
      AllLost(State());
      StepKeeps(State(), Terminate);
      RowsDistinct(State());
      TerminateIs(State());
      hide Invariant, Enabled, Lost, Step, Swept;
      shutdown := true;
      connected := false;
      completed := Sweep(pending, completed);
      reader := Ended;
      SweptIs(old(State()), completed);
    }

    method CloseClient() returns (ok: bool)
      modifies this
      ensures State() == Step(old(State()), Close) && (old(Invariant(State())) ==> Invariant(State()))
      ensures ok == !(old(shutdown) || old(closing))
      ensures ShutFor(State())
    {
      if Invariant(State()) {
        StepKeeps(State(), Close);
      }
      ClosedShuts(Step(State(), Close));
      hide Invariant, ShutFor;
      if shutdown || closing {
        return false;
      }
      closing := true;
      return true;
    }
  }

  /** Taking a call in hand and then completing it. */
  lemma TakenAndDone(c: Client, take: Event, done: Event)
    requires Invariant(c) && Enabled(c, take) && (take.WriteFailed? || take.ReplyTaken?)
    requires done == if take.WriteFailed? then FailDone else ReplyDone
    ensures var taken := Step(c, take);
            Invariant(taken) && (Enabled(taken, done) ==> Invariant(Step(taken, done)))
  {
    StepKeeps(c, take);
    var taken := Step(c, take);
    hide Invariant, Step;
    if Enabled(taken, done) {
      StepKeeps(taken, done);
    }
  }

  /** The two steps of an answer leave the call under `s` with it, and everyone else as before. */
  lemma Answered(c: Client, s: nat)
    requires Invariant(c) && c.reader == Listening
    ensures var taken := Step(c, ReplyTaken(s));
            && (taken.reader.Holding? ==> Enabled(taken, ReplyDone))
            && var d := if taken.reader.Holding? then Step(taken, ReplyDone) else taken;
            && d.reader == Listening && d.pending == c.pending - {s}
            && d.completed == if s in c.pending then c.completed[c.pending[s] := [Reply(s)]] else c.completed
  {
    if s in c.pending {
      WaitingHasNone(c, s);
      assert [] + [Reply(s)] == [Reply(s)];
    } else {
      assert c.pending - {s} == c.pending;
    }
    hide Invariant;
  }

  lemma WriteLost(c: Client, s: nat)
    requires Invariant(c) && c.sender == Writing(s)
    ensures var taken := Step(c, WriteFailed);
            && (taken.sender.Failing? ==> Enabled(taken, FailDone))
            && var d := if taken.sender.Failing? then Step(taken, FailDone) else taken;
            && d.sender == Free && d.pending == c.pending - {s}
            && d.completed == if s in c.pending then c.completed[c.pending[s] := [WriteError]] else c.completed
  {
    assert c.reader != Ended;
    if s in c.pending {
      WaitingHasNone(c, s);
      assert [] + [WriteError] == [WriteError];
    } else {
      assert c.pending - {s} == c.pending;
    }
    hide Invariant;
  }

  lemma TerminateIs(c: Client)
    requires Enabled(c, Terminate)
    ensures Step(c, Terminate) == c.(shutdown := true, connected := false, completed := Swept(c), reader := Ended)
  {
  }

  lemma SweptIs(c: Client, after: map<CallId, seq<Outcome>>)
    requires after.Keys == c.completed.Keys
    requires forall call :: call in c.completed ==>
               after[call] == if call in c.pending.Values then c.completed[call] + [ConnectionLost]
                 else c.completed[call]
    ensures after == Swept(c)
  {
  }

  /** Every call of the table ends with a lost connection, and no other call is touched. */
  predicate Lost(pending: map<nat, CallId>, was: map<CallId, seq<Outcome>>, now: map<CallId, seq<Outcome>>) {
    && (forall s :: s in pending ==> pending[s] in now && now[pending[s]] == [ConnectionLost])
    && (forall call :: call in was && call !in pending.Values ==> call in now && now[call] == was[call])
  }

  lemma AllLost(c: Client)
    requires Invariant(c) && Enabled(c, Terminate)
    ensures Lost(c.pending, c.completed, Step(c, Terminate).completed)
  {
    var d := Step(c, Terminate);
    forall s | s in c.pending ensures c.pending[s] in d.completed && d.completed[c.pending[s]] == [ConnectionLost] {
      WaitingHasNone(c, s);
      InTable(c, s);
      assert [] + [ConnectionLost] == [ConnectionLost];
    }
  }

  lemma InvariantHas(c: Client, s: nat)
    requires Invariant(c)
    ensures s in c.pending ==> c.pending[s] in c.completed
  {
  }

  lemma RowsDistinct(c: Client)
    requires Invariant(c)
    ensures forall s :: s in c.pending ==> c.pending[s] in c.completed
    ensures forall s, q :: s in c.pending && q in c.pending && s != q ==> c.pending[s] != c.pending[q]
  {
  }

  predicate RowFor(pending: map<nat, CallId>, rows: set<nat>, call: CallId)
    requires rows <= pending.Keys
  {
    exists s :: s in rows && pending[s] == call
  }

  /** The loop over the pending table: one completion for each call in it. */
  method Sweep(pending: map<nat, CallId>, before: map<CallId, seq<Outcome>>) returns (after: map<CallId, seq<Outcome>>)
    requires forall s :: s in pending ==> pending[s] in before
    requires forall s, q :: s in pending && q in pending && s != q ==> pending[s] != pending[q]
    ensures after.Keys == before.Keys
    ensures forall call :: call in before ==>
              after[call] == if call in pending.Values then before[call] + [ConnectionLost] else before[call]
  {
    after := before;
    var todo, swept := pending.Keys, {};
    while todo != {}
      invariant todo + swept == pending.Keys && todo !! swept && after.Keys == before.Keys
      invariant forall call :: call in before ==>
                  after[call] == if RowFor(pending, swept, call) then before[call] + [ConnectionLost] else before[call]
      decreases todo
    {
      var s :| s in todo;
      var call := pending[s];
      assert !RowFor(pending, swept, call);
      ghost var earlier := swept;
      todo, swept := todo - {s}, swept + {s};
      after := after[call := after[call] + [ConnectionLost]];
      forall k | k in before ensures RowFor(pending, swept, k) <==> RowFor(pending, earlier, k) || k == call {
        assert s in swept;
        if RowFor(pending, earlier, k) {
          var q :| q in earlier && pending[q] == k;
          assert q in swept;
        }
      }
    }
    assert forall call :: RowFor(pending, pending.Keys, call) <==> call in pending.Values;
  }
}
