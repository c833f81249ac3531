/** The reset loop of a launch (_reset_records in lsfmgr/submitter.py): it wipes the traces of the
    previous execution and decides which jobs are launched. */
module ResetLoop {
  import opened JobModel
  import opened Submission

  datatype JobRecord = JobRecord(
    gen: nat, index: Option<nat>, state: JobState, jobId: Option<nat>,
    exitCode: Option<int>, failReason: Option<string>, failMessage: Option<string>, killed: bool, retryCount: nat,
    submitTime: Option<int>, runTime: Option<int>, startTime: Option<int>, finishTime: Option<int>,
    sourceCluster: Option<string>, forwardCluster: Option<string>,
    command: string, cwd: Option<string>, userData: string)

  /** One job of the launch: its key and the command to submit. */
  datatype Item = Item(key: Key, command: string)

  /** What the Store says when the turn of a key comes: deleted meanwhile, failing, or the record. */
  datatype Answer = Gone | Broken | Held(rec: JobRecord)

  /** A job to launch with its reset record; its task runs in the directory of that record. */
  datatype Launch = Launch(key: Key, command: string, rec: JobRecord)

  /** The new execution knows nothing of the old one; what belongs to the job itself stays. */
  predicate FreshStart(was: JobRecord, now: JobRecord, gen: nat, command: string) {
    && now.gen == gen && now.state.Submitting? && now.command == command
    && now.jobId.None? && now.exitCode.None? && now.failReason.None? && now.failMessage.None?
    && !now.killed && now.retryCount == 0
    && now.submitTime.None? && now.runTime.None? && now.startTime.None? && now.finishTime.None?
    && now.sourceCluster.None? && now.forwardCluster.None?
    && now.index == was.index && now.cwd == was.cwd && now.userData == was.userData
  }

  /** The positions whose record is reset: neither cancelled when the loop began, nor gone, nor failing. */
  function Chosen(keyed: seq<Item>, answers: seq<Answer>, blocked: set<Key>, n: nat): seq<nat>
    requires n <= |keyed| == |answers|
    ensures forall i <- Chosen(keyed, answers, blocked, n) ::
              i < n && keyed[i].key !in blocked && answers[i].Held?
    ensures |Chosen(keyed, answers, blocked, n)| <= n
  {
    if n == 0 then []
    else
      Chosen(keyed, answers, blocked, n - 1)
      + if keyed[n - 1].key !in blocked && answers[n - 1].Held? then [n - 1] else []
  }

  predicate StartsAt(l: Launch, i: nat, keyed: seq<Item>, answers: seq<Answer>, gens: seq<nat>)
    requires |keyed| == |answers| == |gens|
  {
    && i < |keyed| && answers[i].Held? && l.key == keyed[i].key && l.command == keyed[i].command
    && FreshStart(answers[i].rec, l.rec, gens[i], keyed[i].command)
  }

  ghost predicate Started(chosen: seq<nat>, keyed: seq<Item>, answers: seq<Answer>, gens: seq<nat>,
                          launch: seq<Launch>)
    requires |keyed| == |answers| == |gens|
  {
    |launch| == |chosen| && forall j :: 0 <= j < |chosen| ==> StartsAt(launch[j], chosen[j], keyed, answers, gens)
  }

  /** The Store failed for this key, which was to be reset, at one of the first n positions. */
  ghost predicate FailsFor(k: Key, keyed: seq<Item>, answers: seq<Answer>, blocked: set<Key>, n: nat)
    requires n <= |keyed| == |answers|
  {
    k !in blocked && exists i :: 0 <= i < n && keyed[i].key == k && answers[i].Broken?
  }

  /** The ids that the records had before, of launched jobs only. */
  ghost predicate GivenUp(id: nat, launch: seq<Launch>, previous: map<Key, JobRecord>) {
    exists l <- launch :: l.key in previous && previous[l.key].jobId == Some(id)
  }

  lemma GivenUpOneMore(id: nat, launch: seq<Launch>, l: Launch, previous: map<Key, JobRecord>)
    ensures GivenUp(id, launch + [l], previous)
            <==> GivenUp(id, launch, previous) || (l.key in previous && previous[l.key].jobId == Some(id))
  {
    assert forall x :: x in launch + [l] <==> x in launch || x == l;
  }

  lemma FailsForOneMore(k: Key, keyed: seq<Item>, answers: seq<Answer>, blocked: set<Key>, n: nat)
    requires n < |keyed| == |answers|
    ensures FailsFor(k, keyed, answers, blocked, n + 1)
            <==> FailsFor(k, keyed, answers, blocked, n)
                 || (k !in blocked && keyed[n].key == k && answers[n].Broken?)
  {
  }

  method ResetOne(rec: JobRecord, gen: nat, command: string) returns (r: JobRecord)
    ensures FreshStart(rec, r, gen, command)
  {
    r := rec.(gen := gen, state := Submitting, jobId := None, exitCode := None, failReason := None,
              failMessage := None, killed := false, retryCount := 0, command := command, submitTime := None,
              runTime := None, startTime := None, finishTime := None, sourceCluster := None, forwardCluster := None);
  }

  /** What the loop has done for the first n positions. */
  ghost predicate Reset(keyed: seq<Item>, answers: seq<Answer>, gens: seq<nat>, previous: map<Key, JobRecord>,
                        blocked: set<Key>, n: nat, launch: seq<Launch>, stale: seq<nat>, broken: seq<Key>)
    requires n <= |keyed| == |answers| == |gens|
  {
    && Started(Chosen(keyed, answers, blocked, n), keyed, answers, gens, launch)
    && (forall k :: k in broken <==> FailsFor(k, keyed, answers, blocked, n))
    && (forall id :: id in stale <==> GivenUp(id, launch, previous))
  }

  lemma CountingTwice(c: Context, m: nat, n: nat)
    ensures c.Counting(m, Cancellation, []).Counting(n, Cancellation, []) == c.Counting(m + n, Cancellation, [])
  {
    assert c.buffer + [] + [] == c.buffer + [] == c.buffer;
  }

  /** The turn of one key: skipped, lost, failing, or launched. */
  method ResetNext(keyed: seq<Item>, answers: seq<Answer>, gens: seq<nat>, previous: map<Key, JobRecord>,
                   blocked: set<Key>, n: nat, launch: seq<Launch>, stale: seq<nat>, broken: seq<Key>)
    returns (launch': seq<Launch>, stale': seq<nat>, broken': seq<Key>)
    requires n < |keyed| == |answers| == |gens|
    requires Reset(keyed, answers, gens, previous, blocked, n, launch, stale, broken)
    ensures Reset(keyed, answers, gens, previous, blocked, n + 1, launch', stale', broken')
    ensures |launch'| == |launch| + if keyed[n].key !in blocked && answers[n].Held? then 1 else 0
  {
    var k := keyed[n].key;
    launch', stale', broken' := launch, stale, broken;
    if k in blocked || answers[n].Gone? {
      PassedIsReset(keyed, answers, gens, previous, blocked, n, launch, stale, broken);
    } else if answers[n].Broken? {
      FailingIsReset(keyed, answers, gens, previous, blocked, n, launch, stale, broken);
      broken' := broken + [k];
    } else {
      var r := ResetOne(answers[n].rec, gens[n], keyed[n].command);
      var id := if k in previous then previous[k].jobId else None;
      LaunchedIsReset(keyed, answers, gens, previous, blocked, n, launch, stale, broken,
                      Launch(k, keyed[n].command, r), id);
      launch' := launch + [Launch(k, keyed[n].command, r)];
      stale' := stale + if id.Some? then [id.value] else [];
    }
  }

  lemma PassedIsReset(keyed: seq<Item>, answers: seq<Answer>, gens: seq<nat>, previous: map<Key, JobRecord>,
                      blocked: set<Key>, n: nat, launch: seq<Launch>, stale: seq<nat>, broken: seq<Key>)
    requires n < |keyed| == |answers| == |gens| && (keyed[n].key in blocked || answers[n].Gone?)
    requires Reset(keyed, answers, gens, previous, blocked, n, launch, stale, broken)
    ensures Reset(keyed, answers, gens, previous, blocked, n + 1, launch, stale, broken)
  {
    forall x ensures FailsFor(x, keyed, answers, blocked, n + 1) <==> FailsFor(x, keyed, answers, blocked, n) {
      FailsForOneMore(x, keyed, answers, blocked, n);
    }
  }

  lemma FailingIsReset(keyed: seq<Item>, answers: seq<Answer>, gens: seq<nat>, previous: map<Key, JobRecord>,
                       blocked: set<Key>, n: nat, launch: seq<Launch>, stale: seq<nat>, broken: seq<Key>)
    requires n < |keyed| == |answers| == |gens| && keyed[n].key !in blocked && answers[n].Broken?
    requires Reset(keyed, answers, gens, previous, blocked, n, launch, stale, broken)
    ensures Reset(keyed, answers, gens, previous, blocked, n + 1, launch, stale, broken + [keyed[n].key])
  {
    forall x ensures x in broken + [keyed[n].key] <==> FailsFor(x, keyed, answers, blocked, n + 1) {
      FailsForOneMore(x, keyed, answers, blocked, n);
    }
  }

  lemma LaunchedIsReset(keyed: seq<Item>, answers: seq<Answer>, gens: seq<nat>, previous: map<Key, JobRecord>,
                        blocked: set<Key>, n: nat, launch: seq<Launch>, stale: seq<nat>, broken: seq<Key>,
                        l: Launch, id: Option<nat>)
    requires n < |keyed| == |answers| == |gens| && l.key !in blocked
    requires Reset(keyed, answers, gens, previous, blocked, n, launch, stale, broken)
    requires StartsAt(l, n, keyed, answers, gens)
    requires id == if l.key in previous then previous[l.key].jobId else None
    ensures Reset(keyed, answers, gens, previous, blocked, n + 1, launch + [l],
                  stale + (if id.Some? then [id.value] else []), broken)
  {
    forall x ensures FailsFor(x, keyed, answers, blocked, n + 1) <==> FailsFor(x, keyed, answers, blocked, n) {
      FailsForOneMore(x, keyed, answers, blocked, n);
    }
    forall x: nat ensures x in stale + (if id.Some? then [id.value] else [])
                          <==> GivenUp(x, launch + [l], previous)
    {
      GivenUpOneMore(x, launch, l, previous);
    }
  }

  /** The reset loop: answers are what the Store says for each key when its turn comes, gens the fresh
      executions, previous the records as they were before. Every key is either launched or counted as
      cancelled, the refused ones in one go at the end; a failing Store costs its own key only, which
      is reported; stale are the ids that launched jobs gave up. */
  method ResetRecords(ctx: SubmitContext, keyed: seq<Item>, answers: seq<Answer>, gens: seq<nat>,
                      previous: map<Key, JobRecord>)
    returns (launch: seq<Launch>, stale: seq<nat>, broken: seq<Key>)
    requires |keyed| == |answers| == |gens|
    modifies ctx
    ensures Started(Chosen(keyed, answers, old(ctx.cancelledKeys), |keyed|), keyed, answers, gens, launch)
    ensures forall k :: k in broken <==> FailsFor(k, keyed, answers, old(ctx.cancelledKeys), |keyed|)
    ensures forall id :: id in stale <==> GivenUp(id, launch, previous)
    ensures ctx.View() == old(ctx.View()).Counting(|keyed| - |launch|, Cancellation, [])
  {
    var blocked := ctx.cancelledKeys;
    ghost var before := ctx.View();
    launch, stale, broken := [], [], [];
    var skipped: nat, lost: nat := 0, 0;
    for i := 0 to |keyed|
      invariant Reset(keyed, answers, gens, previous, blocked, i, launch, stale, broken)
      invariant |launch| + skipped + lost == i
      invariant ctx.View() == before.Counting(lost, Cancellation, [])
    {
      launch, stale, broken := ResetNext(keyed, answers, gens, previous, blocked, i, launch, stale, broken);
      skipped, lost := CountTurn(ctx, before, keyed[i].key in blocked, answers[i].Held?, skipped, lost);
    }
    CountingTwice(before, lost, skipped);
    ctx.Count(skipped, Cancellation, []);
  }

  /** A refused key is counted later, a lost or failing one at once. */
  method CountTurn(ctx: SubmitContext, ghost before: Context, refused: bool, held: bool, skipped: nat, lost: nat)
    returns (skipped': nat, lost': nat)
    requires ctx.View() == before.Counting(lost, Cancellation, [])
    modifies ctx
    ensures skipped' == skipped + (if refused then 1 else 0)
    ensures lost' == lost + (if !refused && !held then 1 else 0)
    ensures ctx.View() == before.Counting(lost', Cancellation, [])
  {
    skipped', lost' := skipped, lost;
    if refused {
      skipped' := skipped + 1;
    } else if !held {
      CountingTwice(before, lost, 1);
      ctx.Count(1, Cancellation, []);
      lost' := lost + 1;
    }
  }
}
