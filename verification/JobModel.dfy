/** The vocabulary every other module shares: job keys, job states and Option.
    The state classes are those of lsfmgr/states.py. */
module JobModel {

  datatype Option<+T> = None | Some(value: T) {
    function GetOr(default: T): T {
      if Some? then value else default
    }
  }

  /** A job_key: unique inside one jobset, stable over resubmission. */
  datatype Key = Key(name: string)

  datatype JobState =
    | Created | Submitting | RetryWait | SubmitFailed | Cancelled | Lost
    | Pend | Run | Done | Exit | Psusp | Ususp | Ssusp | Unkwn | Zombi
  {
    predicate IsTerminal() {
      Done? || Exit? || SubmitFailed? || Lost? || Cancelled?
    }

    predicate IsOnLsf() {
      Pend? || Run? || Psusp? || Ususp? || Ssusp? || Unkwn? || Zombi?
    }

    /** May be submitted, replaced or removed without force. */
    predicate IsInactive() {
      Created? || IsTerminal()
    }
  }

  /** The life of a job: it is created, on its way to LSF, on LSF or over, and in exactly one of these at
      a time; inactive is what is neither on its way nor on LSF. */
  lemma EveryStateHasItsPlace(st: JobState)
    ensures st.IsOnLsf() <==> st in {Pend, Run, Psusp, Ususp, Ssusp, Unkwn, Zombi}
    ensures st.IsTerminal() <==> st in {Done, Exit, SubmitFailed, Lost, Cancelled}
    ensures st in {Created, Submitting, RetryWait} <==> !st.IsOnLsf() && !st.IsTerminal()
    ensures !(st.IsOnLsf() && st.IsTerminal())
    ensures st.IsInactive() <==> st !in {Submitting, RetryWait} && !st.IsOnLsf()
  {
  }

  /** The next element of a loop over a set, in no particular order. */
  method PickOne<T(==)>(s: set<T>) returns (x: T)
    requires s != {}
    ensures x in s
  {
    x :| x in s;
  }
}
