/** Per-job handlers driven by polling (lsfmgr/handlers.py): who is queued, who runs, and how
    many workers empty the queue. Each function of Service is one section under the locks. */
module Handlers {
  import opened JobModel

  const MAX_HANDLER_WORKERS: nat := 4

  datatype HandlerName = HandlerName(jobset: string, name: string)

  datatype Progress = Unstarted | Started | Over

  /** One run that was queued: on which state, and whether as the last one. */
  datatype Turn = Turn(state: JobState, final: bool)

  /** A registered handler. For the proof: turns are the runs queued for a key since its status was last
      reset, and closed holds the keys then seen in an end without a last run. */
  datatype Handler = Handler(name: HandlerName, starts: set<JobState>, ends: set<JobState>,
                             status: map<Key, Progress>, turns: map<Key, seq<Turn>>, closed: set<Key>)
  {
    function StatusOf(k: Key): Progress {
      if k in status then status[k] else Unstarted
    }

    function TurnsOf(k: Key): seq<Turn> {
      if k in turns then turns[k] else []
    }

    /** Nothing more is to be run for k. */
    predicate Done(k: Key) {
      k in closed || exists t <- TurnsOf(k) :: t.final
    }

    function With(k: Key, p: Progress): Handler {
      this.(status := status[k := p])
    }
  }

  /** The identity of one run: it survives the handler object. */
  datatype RunId = RunId(name: HandlerName, key: Key)

  datatype Item = Item(handler: nat, id: RunId, final: bool)

  datatype Service = Service(handlers: map<HandlerName, nat>, objects: seq<Handler>, inflight: set<RunId>,
                             queue: seq<Item>, draining: nat)
  {
    predicate Registered(n: HandlerName) {
      n in handlers && handlers[n] < |objects|
    }

    function Adding(n: HandlerName, starts: set<JobState>, ends: set<JobState>): Service {
      if n in handlers then this
      else this.(handlers := handlers[n := |objects|],
                 objects := objects + [Handler(n, starts, ends, map[], map[], {})])
    }

    function Removing(n: HandlerName): Service {
      this.(handlers := handlers - {n})
    }

    /** Resubmission: the progress of the keys starts again, in every handler of the jobset. */
    function Rearming(jobset: string, keys: Option<set<Key>>): Service {
      this.(objects := seq(|objects|, i requires 0 <= i < |objects| =>
        if objects[i].name.jobset == jobset && objects[i].name in handlers && handlers[objects[i].name] == i
        then Reset(objects[i], keys) else objects[i]))
    }

    /** One record against one handler: decides whether a run is queued, and which. */
    function Evaluating(n: HandlerName, k: Key, st: JobState): Service {
      if !Registered(n) then this
      else
        var i := handlers[n];
        var h := objects[i];
        if h.StatusOf(k).Over? || RunId(n, k) in inflight then this
        else if st.IsTerminal() && st !in h.ends then
          this.(objects := objects[i := h.With(k, Over).(closed := h.closed + {k})])
        else if h.StatusOf(k).Unstarted? && st !in h.starts && st !in h.ends then this
        else
          var final := st in h.ends;
          var g := h.With(k, if final then Over else Started);
          this.(objects := objects[i := g.(turns := g.turns[k := h.TurnsOf(k) + [Turn(st, final)]])],
                inflight := inflight + {RunId(n, k)},
                queue := queue + [Item(i, RunId(n, k), final)])
    }

    /** How many workers a pump starts. */
    function Wanted(): nat {
      if draining >= MAX_HANDLER_WORKERS then 0
      else if |queue| < MAX_HANDLER_WORKERS - draining then |queue| else MAX_HANDLER_WORKERS - draining
    }

    function Pumping(): Service {
      this.(draining := draining + Wanted())
    }

    /** A worker at the top of its loop: the test for an empty queue and the leaving are one. */
    function Fetching(): Service {
      if queue == [] then this.(draining := if draining > 0 then draining - 1 else 0) else this.(queue := queue[1..])
    }

    function Clearing(id: RunId): Service {
      this.(inflight := inflight - {id})
    }
  }

  function Reset(h: Handler, keys: Option<set<Key>>): Handler {
    match keys
    case None => h.(status := map[], turns := map[], closed := {})
    case Some(ks) => h.(status := h.status - ks, turns := h.turns - ks, closed := h.closed - ks)
  }

  class HandlerService {
    var handlers: map<HandlerName, nat>
    var objects: seq<Handler>
    var inflight: set<RunId>
    var queue: seq<Item>
    var draining: nat

    function View(): Service
      reads this
    {
      Service(handlers, objects, inflight, queue, draining)
    }

    ghost predicate Valid()
      reads this
    {
      forall n <- handlers :: handlers[n] < |objects| && objects[handlers[n]].name == n
    }

    constructor ()
      ensures Valid() && View() == Service(map[], [], {}, [], 0)
    {
      handlers, objects, inflight, queue, draining := map[], [], {}, [], 0;
    }

    method AddHandler(n: HandlerName, starts: set<JobState>, ends: set<JobState>) returns (added: bool)
      requires Valid()
      modifies this
      ensures Valid() && View() == old(View()).Adding(n, starts, ends) && added == (n !in old(handlers))
      ensures added ==> n in handlers && handlers[n] == |old(objects)| && |objects| == |old(objects)| + 1
                        && objects[handlers[n]] == Handler(n, starts, ends, map[], map[], {})
      ensures !added ==> View() == old(View())
    {
      if n in handlers {
        return false;
      }
      handlers := handlers[n := |objects|];
      objects := objects + [Handler(n, starts, ends, map[], map[], {})];
      added := true;
    }

    method RemoveHandler(n: HandlerName)
      requires Valid()
      modifies this
      ensures Valid() && View() == old(View()).Removing(n)
    {
      handlers := handlers - {n};
    }

    method Rearm(jobset: string, keys: Option<set<Key>>)
      requires Valid()
      modifies this
      ensures Valid() && View() == old(View()).Rearming(jobset, keys)
    {
      ghost var before := View();
      var left := handlers.Keys;
      while left != {}
        invariant left <= handlers.Keys && handlers == before.handlers
        invariant View() == before.(objects := objects) && |objects| == |before.objects|
        invariant forall i :: 0 <= i < |objects| ==>
                    objects[i] == if before.objects[i].name.jobset == jobset && before.objects[i].name in handlers
                                     && handlers[before.objects[i].name] == i && before.objects[i].name !in left
                                  then Reset(before.objects[i], keys) else before.objects[i]
      {
        var n := PickOne(left);
        left := left - {n};
        if n.jobset == jobset {
          objects := objects[handlers[n] := Reset(objects[handlers[n]], keys)];
        }
      }
      assert objects == before.Rearming(jobset, keys).objects;
    }

    method EvalRecord(n: HandlerName, k: Key, st: JobState)
      requires Valid()
      modifies this
      ensures Valid() && View() == old(View()).Evaluating(n, k, st)
    {
      if n !in handlers {
        return;
      }
      var i := handlers[n];
      var h := objects[i];
      var progress := h.StatusOf(k);
      if progress == Over || RunId(n, k) in inflight {
        return;
      }
      var inEnd, inStart := st in h.ends, st in h.starts;
      if st.IsTerminal() && !inEnd {
        objects := objects[i := h.With(k, Over).(closed := h.closed + {k})];
        return;
      }
      if progress == Unstarted && !inStart && !inEnd {
        return;
      }
      var g := h.With(k, if inEnd then Over else Started);
      objects := objects[i := g.(turns := g.turns[k := h.TurnsOf(k) + [Turn(st, inEnd)]])];
      inflight := inflight + {RunId(n, k)};
      queue := queue + [Item(i, RunId(n, k), inEnd)];
    }

    method Pump() returns (started: nat)
      requires draining <= MAX_HANDLER_WORKERS
      modifies this
      ensures View() == old(View()).Pumping() && started == old(View()).Wanted()
      ensures handlers == old(handlers) && objects == old(objects)
    {
      started := if MAX_HANDLER_WORKERS - draining < |queue| then MAX_HANDLER_WORKERS - draining else |queue|;
      draining := draining + started;
    }

    method Fetch() returns (item: Option<Item>)
      requires draining > 0
      modifies this
      ensures View() == old(View()).Fetching()
      ensures item == if old(queue) == [] then None else Some(old(queue)[0])
    {
      if queue == [] {
        draining := draining - 1;
        return None;
      }
      item := Some(queue[0]);
      queue := queue[1..];
    }

    method ClearInflight(id: RunId)
      modifies this
      ensures View() == old(View()).Clearing(id)
    {
      inflight := inflight - {id};
    }
  }

  // ---------------------------------------------------------------------
  // The service with its workers
  // ---------------------------------------------------------------------

  /** idle workers are at the top of their loop; due says that main evaluated records and has
      not pumped yet, which is only so inside one tick. */
  datatype System = System(svc: Service, running: seq<Item>, idle: nat, due: bool)

  datatype Action =
    | Add(n: HandlerName, starts: set<JobState>, ends: set<JobState>) | Remove(n: HandlerName)
    | Rearm(jobset: string, keys: Option<set<Key>>)
    | Evaluate(n: HandlerName, k: Key, st: JobState) | Pump
    | Fetch | EndRun(i: nat)

  function Next(s: System, a: Action): System {
    match a
    case Add(n, starts, ends) => s.(svc := s.svc.Adding(n, starts, ends))
    case Remove(n) => s.(svc := s.svc.Removing(n))
    case Rearm(jobset, keys) => s.(svc := s.svc.Rearming(jobset, keys))
    case Evaluate(n, k, st) => s.(svc := s.svc.Evaluating(n, k, st), due := true)
    case Pump => s.(svc := s.svc.Pumping(), idle := s.idle + s.svc.Wanted(), due := false)
    case Fetch =>
      if s.idle > 0 then
        s.(svc := s.svc.Fetching(), idle := s.idle - 1,
           running := if s.svc.queue == [] then s.running else s.running + [s.svc.queue[0]])
      else s
    case EndRun(i) =>
      if i < |s.running| then
        s.(svc := s.svc.Clearing(s.running[i].id), running := s.running[..i] + s.running[i + 1..], idle := s.idle + 1)
      else s
  }

  function After(actions: seq<Action>): System {
    if actions == [] then System(Service(map[], [], {}, [], 0), [], 0, false)
    else Next(After(actions[..|actions| - 1]), actions[|actions| - 1])
  }

  function Runs(items: seq<Item>, id: RunId): nat {
    if items == [] then 0 else Runs(items[..|items| - 1], id) + if items[|items| - 1].id == id then 1 else 0
  }

  lemma {:induction false} RunsOfBoth(items: seq<Item>, more: seq<Item>, id: RunId)
    ensures Runs(items + more, id) == Runs(items, id) + Runs(more, id)
  {
    if more == [] {
      assert items + more == items;
    } else {
      RunsOfBoth(items, more[..|more| - 1], id);
      assert (items + more)[..|items + more| - 1] == items + more[..|more| - 1];
    }
  }

  lemma RunsOfOne(item: Item, id: RunId)
    ensures Runs([item], id) == if item.id == id then 1 else 0
  {
    assert [item][..0] == [];
  }

  lemma RunsWithout(items: seq<Item>, i: nat, id: RunId)
    requires i < |items|
    ensures Runs(items, id) == Runs(items[..i] + items[i + 1..], id) + if items[i].id == id then 1 else 0
  {
    assert items == items[..i] + [items[i]] + items[i + 1..];
    RunsOfBoth(items[..i], [items[i]], id);
    RunsOfBoth(items[..i] + [items[i]], items[i + 1..], id);
    RunsOfBoth(items[..i], items[i + 1..], id);
    RunsOfOne(items[i], id);
  }

  ghost predicate InflightAgrees(s: System) {
    forall id :: Runs(s.svc.queue, id) + Runs(s.running, id) == if id in s.svc.inflight then 1 else 0
  }

  ghost predicate WorkersAgree(s: System) {
    && s.svc.draining == s.idle + |s.running| <= MAX_HANDLER_WORKERS
    && (s.svc.queue != [] ==> s.svc.draining > 0 || s.due)
  }

  /** The first run is on a start or end state, none is on an end that is not asked for, and only
      the last one is on an end state. */
  ghost predicate Orderly(turns: seq<Turn>, starts: set<JobState>, ends: set<JobState>) {
    && (turns != [] ==> turns[0].state in starts || turns[0].state in ends)
    && (forall j :: 0 <= j < |turns| ==> (turns[j].final <==> turns[j].state in ends))
    && (forall j :: 0 <= j < |turns| ==> turns[j].final || !turns[j].state.IsTerminal())
    && (forall j :: 0 <= j < |turns| - 1 ==> !turns[j].final)
  }

  ghost predicate HandlerAgrees(h: Handler) {
    forall k ::
      && Orderly(h.TurnsOf(k), h.starts, h.ends)
      && (h.StatusOf(k).Over? <==> h.Done(k))
      && (h.StatusOf(k).Unstarted? <==> !h.Done(k) && h.TurnsOf(k) == [])
  }

  ghost predicate TurnsAgree(s: System) {
    forall i :: 0 <= i < |s.svc.objects| ==> HandlerAgrees(s.svc.objects[i])
  }

  ghost predicate Inv(s: System) {
    InflightAgrees(s) && WorkersAgree(s) && TurnsAgree(s)
  }

  lemma EvaluateKeepsInflight(s: System, n: HandlerName, k: Key, st: JobState)
    requires InflightAgrees(s)
    ensures InflightAgrees(Next(s, Evaluate(n, k, st)))
  {
    var t := Next(s, Evaluate(n, k, st));
    if t.svc.queue != s.svc.queue {
      var item := t.svc.queue[|s.svc.queue|];
      forall id ensures Runs(t.svc.queue, id) == Runs(s.svc.queue, id) + if item.id == id then 1 else 0 {
        RunsOfBoth(s.svc.queue, [item], id);
        RunsOfOne(item, id);
      }
    }
  }

  lemma FetchKeepsInflight(s: System)
    requires InflightAgrees(s)
    ensures InflightAgrees(Next(s, Fetch))
  {
    if s.idle > 0 && s.svc.queue != [] {
      var t := Next(s, Fetch);
      forall id ensures Runs(t.svc.queue, id) + Runs(t.running, id) == Runs(s.svc.queue, id) + Runs(s.running, id) {
        FetchMovesOne(s.svc.queue, s.running, id);
      }
    }
  }

  lemma FetchMovesOne(queue: seq<Item>, running: seq<Item>, id: RunId)
    requires queue != []
    ensures Runs(queue[1..], id) + Runs(running + [queue[0]], id) == Runs(queue, id) + Runs(running, id)
  {
    RunsWithout(queue, 0, id);
    assert queue[..0] + queue[1..] == queue[1..];
    RunsOfBoth(running, [queue[0]], id);
    RunsOfOne(queue[0], id);
  }

  lemma EndRunKeepsInflight(s: System, i: nat)
    requires InflightAgrees(s)
    ensures InflightAgrees(Next(s, EndRun(i)))
  {
    if i < |s.running| {
      var t := Next(s, EndRun(i));
      forall id ensures Runs(t.svc.queue, id) + Runs(t.running, id) == if id in t.svc.inflight then 1 else 0 {
        RunsWithout(s.running, i, id);
      }
    }
  }

  lemma ResetAgrees(h: Handler, keys: Option<set<Key>>)
    requires HandlerAgrees(h)
    ensures HandlerAgrees(Reset(h, keys))
  {
    var g := Reset(h, keys);
    forall k
      ensures if keys.None? || k in keys.value then g.TurnsOf(k) == [] && g.StatusOf(k).Unstarted? && k !in g.closed
              else g.TurnsOf(k) == h.TurnsOf(k) && g.StatusOf(k) == h.StatusOf(k) && (k in g.closed <==> k in h.closed)
    {
    }
  }

  lemma RearmKeepsTurns(s: System, jobset: string, keys: Option<set<Key>>)
    requires TurnsAgree(s)
    ensures TurnsAgree(Next(s, Rearm(jobset, keys)))
  {
    var t := Next(s, Rearm(jobset, keys));
    forall i | 0 <= i < |t.svc.objects| ensures HandlerAgrees(t.svc.objects[i]) {
      ResetAgrees(s.svc.objects[i], keys);
    }
  }

  /** A job is over for the handler after the turn, or after an end that was not asked for. */
  lemma TurnAgrees(h: Handler, k: Key, st: JobState)
    requires HandlerAgrees(h) && !h.StatusOf(k).Over?
    requires st.IsTerminal() ==> st in h.ends
    requires h.StatusOf(k).Unstarted? ==> st in h.starts || st in h.ends
    ensures var final := st in h.ends;
            HandlerAgrees(h.With(k, if final then Over else Started)
                           .(turns := h.turns[k := h.TurnsOf(k) + [Turn(st, final)]]))
  {
    var final := st in h.ends;
    var more := h.TurnsOf(k) + [Turn(st, final)];
    var g := h.With(k, if final then Over else Started).(turns := h.turns[k := more]);
    assert more[|more| - 1] == Turn(st, final);
    forall x ensures x != k ==> g.TurnsOf(x) == h.TurnsOf(x) && (g.Done(x) <==> h.Done(x)) {
    }
    assert g.TurnsOf(k) == more && (g.Done(k) <==> final);
  }

  lemma ClosingAgrees(h: Handler, k: Key)
    requires HandlerAgrees(h)
    ensures HandlerAgrees(h.With(k, Over).(closed := h.closed + {k}))
  {
    var g := h.With(k, Over).(closed := h.closed + {k});
    forall x ensures g.TurnsOf(x) == h.TurnsOf(x) && (x != k ==> (g.Done(x) <==> h.Done(x))) {
    }
  }

  lemma EvaluateKeepsTurns(s: System, n: HandlerName, k: Key, st: JobState)
    requires TurnsAgree(s)
    ensures TurnsAgree(Next(s, Evaluate(n, k, st)))
  {
    var t := Next(s, Evaluate(n, k, st));
    if t.svc.objects != s.svc.objects {
      var h := s.svc.objects[s.svc.handlers[n]];
      if st.IsTerminal() && st !in h.ends {
        ClosingAgrees(h, k);
      } else {
        TurnAgrees(h, k, st);
      }
    }
  }

  lemma NextKeeps(s: System, a: Action)
    requires Inv(s)
    ensures Inv(Next(s, a))
  {
    match a
    case Evaluate(n, k, st) =>
      EvaluateKeepsInflight(s, n, k, st);
      EvaluateKeepsTurns(s, n, k, st);
    case Rearm(jobset, keys) => RearmKeepsTurns(s, jobset, keys);
    case Fetch => FetchKeepsInflight(s);
    case EndRun(i) => EndRunKeepsInflight(s, i);
    case _ =>
  }

  lemma {:induction false} RunKeeps(actions: seq<Action>)
    ensures Inv(After(actions))
    decreases |actions|
  {
    if actions == [] {
    } else {
      RunKeeps(actions[..|actions| - 1]);
      NextKeeps(After(actions[..|actions| - 1]), actions[|actions| - 1]);
    }
  }

  /** A handler never runs twice at once for one job: its name and the job identify at most one
      entry among the queue and the running workers, also when the handler was removed and
      registered again meanwhile, and exactly those are marked as in flight. */
  lemma {:induction false} NeverTwiceAtOnce(actions: seq<Action>, id: RunId)
    ensures var s := After(actions);
            Runs(s.svc.queue, id) + Runs(s.running, id) == if id in s.svc.inflight then 1 else 0
  {
    RunKeeps(actions);
  }

  /** Between two resets of a job's progress: its runs are orderly, so there is at most one last run and
      nothing after it. */
  lemma {:induction false} OneFinalRunPerReset(actions: seq<Action>, i: nat, k: Key)
    requires i < |After(actions).svc.objects|
    ensures var h := After(actions).svc.objects[i];
            && Orderly(h.TurnsOf(k), h.starts, h.ends)
            && forall j :: 0 <= j < |h.TurnsOf(k)| && h.TurnsOf(k)[j].final ==> j == |h.TurnsOf(k)| - 1
  {
    RunKeeps(actions);
    assert HandlerAgrees(After(actions).svc.objects[i]);
  }

  /** What one look at a record does to its handler and to the queue. */
  ghost predicate LookedAt(s: System, t: System, i: nat, id: RunId, st: JobState)
    requires i < |s.svc.objects|
  {
    var h := s.svc.objects[i];
    var k := id.key;
    var free := id !in s.svc.inflight && k !in h.closed && (forall x <- h.TurnsOf(k) :: !x.final);
    var runs := free && (st in h.ends || (!st.IsTerminal() && (h.TurnsOf(k) != [] || st in h.starts)));
    && |t.svc.objects| == |s.svc.objects| && (forall j :: 0 <= j < |s.svc.objects| && j != i ==>
                                               t.svc.objects[j] == s.svc.objects[j])
    && t.svc.objects[i].TurnsOf(k) == h.TurnsOf(k) + (if runs then [Turn(st, st in h.ends)] else [])
    && t.svc.queue == s.svc.queue + (if runs then [Item(i, id, st in h.ends)] else [])
    && t.svc.inflight == s.svc.inflight + (if runs then {id} else {})
    && t.svc.objects[i].closed == h.closed + (if free && st.IsTerminal() && st !in h.ends then {k} else {})
  }

  /** Over every run, what a look at a record does follows from the runs since the last reset alone. A run is
      queued exactly if none of this handler is in flight for the job, no last run and no unwanted end
      came before, and the state is an end state, or is no end at all and either starts the handler or
      finds it started. It is the last run exactly on an end state. */
  lemma {:induction false} RunsAreQueuedByTheTurns(actions: seq<Action>, n: HandlerName, k: Key, st: JobState)
    requires After(actions).svc.Registered(n)
    ensures var s := After(actions);
            LookedAt(s, Next(s, Evaluate(n, k, st)), s.svc.handlers[n], RunId(n, k), st)
  {
    RunKeeps(actions);
    var s := After(actions);
    var h := s.svc.objects[s.svc.handlers[n]];
    assert HandlerAgrees(h);
    assert h.TurnsOf(k) + [] == h.TurnsOf(k);
  }

  /** A new name is registered with its own start and end states and no past; a name in use stays. */
  lemma AddedHandlerIsAsAsked(s: System, n: HandlerName, starts: set<JobState>, ends: set<JobState>)
    ensures var t := Next(s, Add(n, starts, ends));
            if n in s.svc.handlers then t == s
            else
              && t.svc.handlers == s.svc.handlers[n := |s.svc.objects|]
              && t.svc.objects == s.svc.objects + [Handler(n, starts, ends, map[], map[], {})]
              && t.svc.inflight == s.svc.inflight && t.svc.queue == s.svc.queue && t.running == s.running
  {
  }

  /** A reset starts the runs of the named jobs again, in every handler registered for the jobset, and
      nowhere else. */
  lemma RearmStartsAgain(s: System, jobset: string, keys: Option<set<Key>>, i: nat, k: Key)
    requires i < |s.svc.objects|
    ensures var t := Next(s, Rearm(jobset, keys));
            var h, g := s.svc.objects[i], t.svc.objects[i];
            if h.name.jobset == jobset && (keys.None? || k in keys.value)
               && h.name in s.svc.handlers && s.svc.handlers[h.name] == i
            then g.TurnsOf(k) == [] && !g.Done(k) && g.StatusOf(k).Unstarted?
            else g.TurnsOf(k) == h.TurnsOf(k) && (g.Done(k) <==> h.Done(k)) && g.StatusOf(k) == h.StatusOf(k)
  {
  }

  /** The workers stay within their limit, and outside a tick nothing is queued without a worker
      that will still look at the queue. */
  lemma {:induction false} QueueIsServed(actions: seq<Action>)
    ensures var s := After(actions);
            && s.idle + |s.running| <= MAX_HANDLER_WORKERS
            && (s.svc.queue != [] && !s.due ==> s.idle + |s.running| > 0)
  {
    RunKeeps(actions);
  }

  /** A pump leaves no room unused: either all workers are busy or each queued run gets a new one. */
  lemma PumpFillsUp(s: System)
    requires s.svc.draining <= MAX_HANDLER_WORKERS
    ensures var t := Next(s, Pump);
            && t.svc.draining - s.svc.draining == t.idle - s.idle >= 0
            && t.svc.draining <= MAX_HANDLER_WORKERS && t.idle - s.idle <= |s.svc.queue|
            && (t.svc.draining == MAX_HANDLER_WORKERS || t.idle - s.idle == |s.svc.queue|)
            && !t.due && t.svc.queue == s.svc.queue && t.running == s.running
  {
  }
}
