/** The simulation's future event set: ordered by time, events due at the same time in
    the order in which they were scheduled. */
module EventList {

  datatype Event<+T> = Event(time: real, what: T)

  predicate Sorted<T>(fes: seq<Event<T>>) {
    forall i, j :: 0 <= i < j < |fes| ==> fes[i].time <= fes[j].time
  }

  /** How many events at the front are due no later than t. */
  function Rank<T>(fes: seq<Event<T>>, t: real): (k: nat)
    ensures k <= |fes|
    ensures forall i :: 0 <= i < k ==> fes[i].time <= t
    ensures k < |fes| ==> fes[k].time > t
  {
    if fes == [] || fes[0].time > t then 0 else 1 + Rank(fes[1..], t)
  }

  /** scheduleAt: after everything due no later. */
  function Schedule<T>(fes: seq<Event<T>>, t: real, what: T): seq<Event<T>> {
    var k := Rank(fes, t);
    fes[..k] + [Event(t, what)] + fes[k..]
  }

  lemma ScheduledAt<T>(fes: seq<Event<T>>, t: real, what: T, i: nat)
    requires i <= |fes|
    ensures |Schedule(fes, t, what)| == |fes| + 1
    ensures var k := Rank(fes, t);
            Schedule(fes, t, what)[i] == if i < k then fes[i] else if i == k then Event(t, what) else fes[i - 1]
  {
  }

  lemma ScheduleSorted<T>(fes: seq<Event<T>>, t: real, what: T)
    requires Sorted(fes)
    ensures Sorted(Schedule(fes, t, what))
  {
    var s := Schedule(fes, t, what);
    forall i, j | 0 <= i < j < |s| ensures s[i].time <= s[j].time {
      ScheduledAt(fes, t, what, i);
      ScheduledAt(fes, t, what, j);
    }
  }

  /** What is due last goes last. */
  lemma ScheduleLast<T>(fes: seq<Event<T>>, t: real, what: T)
    requires forall i :: 0 <= i < |fes| ==> fes[i].time <= t
    ensures Schedule(fes, t, what) == fes + [Event(t, what)]
  {
    var k := Rank(fes, t);
    assert k == |fes|;
    assert fes[..k] == fes && fes[k..] == [];
  }
}
