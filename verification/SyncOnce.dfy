/**
 A once-only call shared by any number of goroutines: a done flag read without a lock, and a mutex held
 around a second look at the flag and the body. What the body does is left to the protocol that uses it.
 */
module SyncOnce {
  import opened Wrappers

  /** Where a caller stands. The mutex is held from Holding up to Leaving. */
  datatype Pc = Calling | Holding | Running | Leaving | Past

  /** The flag, the owner of the mutex, the callers, and how often the body was begun. */
  datatype Once = Once(done: bool, holder: Option<nat>, callers: map<nat, Pc>, begun: nat)

  const UNUSED := Once(false, None, map[], 0)

  datatype Step = Call | Skip | Acquire | Begin | SeeDone | Finish | Release

  predicate At(o: Once, c: nat, pc: Pc) {
    c in o.callers && o.callers[c] == pc
  }

  predicate Enabled(o: Once, c: nat, step: Step) {
    match step
    case Call => c !in o.callers
    case Skip => At(o, c, Calling) && o.done
    case Acquire => At(o, c, Calling) && o.holder.None?
    case Begin => At(o, c, Holding) && !o.done
    case SeeDone => At(o, c, Holding) && o.done
    case Finish => At(o, c, Running)
    case Release => At(o, c, Leaving)
  }

  function Apply(o: Once, c: nat, step: Step): Once {
    match step
    case Call => o.(callers := o.callers[c := Calling])
    case Skip => o.(callers := o.callers[c := Past])
    case Acquire => o.(holder := Some(c), callers := o.callers[c := Holding])
    case Begin => o.(callers := o.callers[c := Running], begun := o.begun + 1)
    case SeeDone => o.(callers := o.callers[c := Leaving])
    case Finish => o.(done := true, callers := o.callers[c := Leaving])
    case Release => o.(holder := None, callers := o.callers[c := Past])
  }

  predicate Owns(pc: Pc) {
    pc.Holding? || pc.Running? || pc.Leaving?
  }

  ghost predicate Inv(o: Once) {
    && (o.holder.Some? ==> o.holder.value in o.callers && Owns(o.callers[o.holder.value]))
    && (forall c :: c in o.callers && Owns(o.callers[c]) ==> o.holder == Some(c))
    && (forall c :: c in o.callers && (o.callers[c].Leaving? || o.callers[c].Past?) ==> o.done)
    && (o.done ==> forall c :: c in o.callers ==> !o.callers[c].Running?)
    && o.begun == (if o.done || (o.holder.Some? && o.callers[o.holder.value].Running?) then 1 else 0)
  }

  lemma KeepsInv(o: Once, c: nat, step: Step)
    requires Inv(o) && Enabled(o, c, step)
    ensures Inv(Apply(o, c, step))
  {
  }

  /** The body is begun at most once, at most one caller is in it, and whoever gets past finds it finished. */
  lemma BodyRunsOnce(o: Once, c: nat, c': nat)
    requires Inv(o)
    ensures o.begun <= 1 && (Enabled(o, c, Begin) ==> o.begun == 0)
    ensures At(o, c, Running) && At(o, c', Running) ==> c == c'
    ensures At(o, c, Past) ==> o.begun == 1 && o.done && !At(o, c', Running)
  {
  }
}
