/** What the manager forgets about jobs that were really deleted (lsfmgr/manager.py), over the objects
    that remember something about a job: pacer, delivery filter, handlers, poller and status ledger. */
module Cleanup {
  import opened JobModel
  import Delivery
  import Handlers
  import InternalStatus
  import Pacing
  import Polling

  function AsKeys(keys: Option<seq<Key>>): Option<set<Key>> {
    match keys
    case None => None
    case Some(ks) => Some(set k | k in ks)
  }

  /** No keys stand for all jobs of the jobset. */
  predicate Covers(keys: Option<seq<Key>>, k: Key) {
    keys.None? || k in keys.value
  }

  /** Everything remembered about the jobs of one jobset; without a display dwell there is no pacer.
      Pacer, handlers and poller also serve other jobsets. */
  class JobMemory {
    const jobset: string
    const pacer: Pacing.StatePacer?
    const delivery: Delivery.Deliverer
    const handlers: Handlers.HandlerService
    const querier: Polling.Querier
    const ledger: InternalStatus.StatusLedger

    constructor (jobset: string, pacer: Pacing.StatePacer?, delivery: Delivery.Deliverer,
                 handlers: Handlers.HandlerService, querier: Polling.Querier, ledger: InternalStatus.StatusLedger)
      ensures this.jobset == jobset && this.pacer == pacer && this.delivery == delivery
      ensures this.handlers == handlers && this.querier == querier && this.ledger == ledger
    {
      this.jobset, this.pacer, this.delivery := jobset, pacer, delivery;
      this.handlers, this.querier, this.ledger := handlers, querier, ledger;
    }

    ghost predicate Valid()
      reads this, pacer, handlers, querier, ledger
    {
      (pacer != null ==> pacer.Valid()) && handlers.Valid() && querier.Valid() && ledger.Valid()
    }

    /** Nothing of an earlier job under this key is left that a later one could inherit. */
    ghost predicate Clean(k: Key)
      requires Valid()
      reads this, pacer, delivery, handlers, querier, ledger
    {
      && (pacer != null ==> pacer.CellOf(Pacing.Slot(jobset, k)).shown.None?
                            && pacer.CellOf(Pacing.Slot(jobset, k)).queue == [])
      && Delivery.LastRevision(delivery.emitted, k) == -1
      && (forall n <- handlers.handlers :: n.jobset == jobset ==>
            handlers.objects[handlers.handlers[n]].StatusOf(k).Unstarted?)
      && k !in Polling.Of(querier.missing, jobset)
    }

    /** Handlers start again, streaks of ended executions go, and so do the ids in the ledger. */
    method ForgetTracking(keys: Option<seq<Key>>, ids: set<nat>, records: map<Key, Polling.Rec>)
      requires Valid()
      modifies handlers, querier, ledger`interest, ledger`ledger
      ensures Valid()
      ensures handlers.View() == old(handlers.View()).Rearming(jobset, AsKeys(keys))
      ensures Polling.Of(querier.missing, jobset)
           == if keys.None? then map[]
              else Polling.Forgotten(Polling.Of(old(querier.missing), jobset), AsKeys(keys).value, records)
      ensures forall js :: js != jobset ==> Polling.Of(querier.missing, js) == Polling.Of(old(querier.missing), js)
      ensures ledger.interest == old(ledger.interest) - ids && ledger.ledger == old(ledger.ledger) - ids
    {
      handlers.Rearm(jobset, AsKeys(keys));
      querier.Forget(jobset, keys, records);
      if ids != {} {
        ledger.Forget(ids);
      }
    }

    /** For jobs that are gone from the Store, whose records are those that remain: display, delivery and
        tracking are forgotten for exactly these keys, and a later job under such a key starts clean. */
    method ForgetPaced(keys: Option<seq<Key>>, ids: set<nat>, records: map<Key, Polling.Rec>)
      requires Valid()
      modifies pacer, delivery, handlers, querier, ledger`interest, ledger`ledger
      ensures Valid()
      ensures pacer != null ==>
                forall s :: pacer.CellOf(s) == (if s.jobset == jobset && Covers(keys, s.key)
                                                then Pacing.Cell(None, [], old(pacer.CellOf(s)).sent)
                                                else old(pacer.CellOf(s)))
      ensures forall k :: Delivery.LastRevision(delivery.emitted, k)
                       == if Covers(keys, k) then -1 else Delivery.LastRevision(old(delivery.emitted), k)
      ensures handlers.View() == old(handlers.View()).Rearming(jobset, AsKeys(keys))
      ensures Polling.Of(querier.missing, jobset)
           == if keys.None? then map[]
              else Polling.Forgotten(Polling.Of(old(querier.missing), jobset), AsKeys(keys).value, records)
      ensures forall js :: js != jobset ==> Polling.Of(querier.missing, js) == Polling.Of(old(querier.missing), js)
      ensures ledger.interest == old(ledger.interest) - ids && ledger.ledger == old(ledger.ledger) - ids
      ensures forall k :: Covers(keys, k) && k !in records ==> Clean(k)
    {
      if pacer != null {
        pacer.Forget(jobset, AsKeys(keys));
      }
      delivery.ForgetRevisions(AsKeys(keys));
      ForgetTracking(keys, ids, records);
    }
  }
}
