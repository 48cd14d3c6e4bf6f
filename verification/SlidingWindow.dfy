/**
 * The rule behind both daily limits: an entry is let in when what was let in during the window
 * that ends with it, plus the entry itself, stays within the cap.
 */
module SlidingWindow {

  datatype Entry = Entry(time: int, weight: real)

  const DAY_MS := 24 * 60 * 60 * 1000

  /** What was let in at or after `from`: the sum the check looks at. */
  function Since(log: seq<Entry>, from: int): real {
    if log == [] then 0.0
    else
      var last := log[|log| - 1];
      Since(log[..|log| - 1], from) + if from <= last.time then last.weight else 0.0
  }

  /** What was let in during the closed window [from, to]. */
  function Between(log: seq<Entry>, from: int, to: int): real {
    if log == [] then 0.0
    else
      var last := log[|log| - 1];
      Between(log[..|log| - 1], from, to) + if from <= last.time <= to then last.weight else 0.0
  }

  /** Every entry came no earlier than the ones before it and was let in by the check. */
  predicate Admitted(log: seq<Entry>, cap: real) {
    log == [] ||
    var before, last := log[..|log| - 1], log[|log| - 1];
    && Admitted(before, cap)
    && (forall i | 0 <= i < |before| :: before[i].time <= last.time)
    && Since(before, last.time - DAY_MS) + last.weight <= cap
  }

  lemma AppendAdmitted(log: seq<Entry>, e: Entry, cap: real)
    requires Admitted(log, cap) && forall i | 0 <= i < |log| :: log[i].time <= e.time
    requires Since(log, e.time - DAY_MS) + e.weight <= cap
    ensures Admitted(log + [e], cap)
  {
    var longer := log + [e];
    assert longer[..|longer| - 1] == log;
  }

  lemma BetweenOfAppend(log: seq<Entry>, e: Entry, from: int, to: int)
    ensures Between(log + [e], from, to) == Between(log, from, to) + if from <= e.time <= to then e.weight else 0.0
  {
    assert (log + [e])[..|log|] == log;
  }

  lemma SinceOfAppend(log: seq<Entry>, e: Entry, from: int)
    ensures Since(log + [e], from) == Since(log, from) + if from <= e.time then e.weight else 0.0
  {
    assert (log + [e])[..|log|] == log;
  }

  predicate NonNegative(log: seq<Entry>) {
    forall i | 0 <= i < |log| :: log[i].weight >= 0.0
  }

  lemma {:induction false} WiderIsMore(log: seq<Entry>, from: int, to: int, earlier: int)
    requires NonNegative(log) && earlier <= from
    ensures 0.0 <= Between(log, from, to) <= Since(log, earlier)
  {
    if log != [] {
      WiderIsMore(log[..|log| - 1], from, to, earlier);
    }
  }

  lemma {:induction false} NothingLater(log: seq<Entry>, from: int, to: int)
    requires forall i | 0 <= i < |log| :: log[i].time < from
    ensures Between(log, from, to) == 0.0
  {
    if log != [] {
      NothingLater(log[..|log| - 1], from, to);
    }
  }

  /** No closed day, wherever it starts, holds more than the cap. */
  lemma {:induction false} EveryWindowWithinCap(log: seq<Entry>, cap: real, from: int)
    requires Admitted(log, cap) && NonNegative(log) && cap >= 0.0
    ensures Between(log, from, from + DAY_MS) <= cap
  {
    if log != [] {
      var before, last := log[..|log| - 1], log[|log| - 1];
      if last.time < from {
        NothingLater(log, from, from + DAY_MS);
      } else if last.time <= from + DAY_MS {
        WiderIsMore(before, from, from + DAY_MS, last.time - DAY_MS);
      } else {
        EveryWindowWithinCap(before, cap, from);
      }
    }
  }
}
