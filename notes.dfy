/**
 * Transcribed notes and the pending-note store of the keyboard visualiser
 * (`Note` and `NoteManager` in keyboard_demo.py).
 *
 * The store keeps its notes in a list. `add` appends and marks the list as
 * not primed; `prime` stable-sorts it by descending start time; `pop_notes`
 * primes if needed and then pops from the END of the list every note that is
 * due. The functions below give the list `prime` produces (SortDesc), the
 * list `pop_notes` leaves (Keep) and the list it returns (Take); the lemmas
 * say what those mean.
 */
module NoteSchedule {

  /** One transcribed note: identity, onset and duration (seconds), MIDI key. */
  datatype Note = Note(id: int, startTime: real, duration: real, midi: int)

  /** `s` back to front. */
  function Reversed<T>(s: seq<T>): (r: seq<T>)
    ensures |r| == |s| && multiset(r) == multiset(s)
  {
    if s == [] then []
    else
      assert s == s[..|s| - 1] + [s[|s| - 1]];
      [s[|s| - 1]] + Reversed(s[..|s| - 1])
  }

  lemma {:induction false} ReversedAt<T>(s: seq<T>, k: int)
    requires 0 <= k < |s|
    ensures Reversed(s)[k] == s[|s| - 1 - k]
  {
    if k > 0 {
      ReversedAt(s[..|s| - 1], k - 1);
    }
  }

  lemma ReversedSnoc<T>(a: seq<T>, x: T)
    ensures Reversed(a + [x]) == [x] + Reversed(a)
  {
    assert (a + [x])[..|a|] == a;
  }

  /** Latest start first: the order `prime` leaves the list in. */
  ghost predicate SortedDesc(s: seq<Note>)
  {
    forall i, j :: 0 <= i < j < |s| ==> s[i].startTime >= s[j].startTime
  }

  /** Earliest start first. */
  ghost predicate SortedAsc(s: seq<Note>)
  {
    forall i, j :: 0 <= i < j < |s| ==> s[i].startTime <= s[j].startTime
  }

  /**
   * Inserts `x` into a list sorted latest-first, after every note whose start
   * time is not smaller than its own (so after the notes it ties with).
   */
  function Insert(x: Note, r: seq<Note>): (u: seq<Note>)
    ensures multiset(u) == multiset(r) + multiset{x}
  {
    if r == [] then [x]
    else if x.startTime > r[0].startTime then [x] + r
    else
      assert r == [r[0]] + r[1..];
      [r[0]] + Insert(x, r[1..])
  }

  lemma {:induction false} InsertSorted(x: Note, r: seq<Note>)
    requires SortedDesc(r)
    ensures SortedDesc(Insert(x, r))
  {
    if r != [] && x.startTime <= r[0].startTime {
      var u' := Insert(x, r[1..]);
      InsertSorted(x, r[1..]);
      forall j | 0 <= j < |u'|
        ensures r[0].startTime >= u'[j].startTime
      {
        assert u'[j] in multiset(u');
        if u'[j] != x {
          assert u'[j] in r[1..];
        }
      }
    }
  }

  /**
   * The list after `notes.sort(key=lambda note: -note.start_time)`: Python's
   * sort is stable, so this is insertion sort taking the notes in list order.
   */
  function SortDesc(s: seq<Note>): (r: seq<Note>)
    ensures multiset(r) == multiset(s)
    ensures SortedDesc(r)
  {
    if s == [] then []
    else
      assert s == s[..|s| - 1] + [s[|s| - 1]];
      InsertSorted(s[|s| - 1], SortDesc(s[..|s| - 1]));
      Insert(s[|s| - 1], SortDesc(s[..|s| - 1]))
  }

  /** The notes of `s` that start at time `k`, in the order of `s`. */
  function StartingAt(s: seq<Note>, k: real): (r: seq<Note>)
    ensures |r| <= |s|
  {
    if s == [] then []
    else (if s[0].startTime == k then [s[0]] else []) + StartingAt(s[1..], k)
  }

  /** No note of `s` starts at `k` exactly when none is picked out. */
  lemma {:induction false} StartingAtEmpty(s: seq<Note>, k: real)
    ensures StartingAt(s, k) == [] <==> forall i :: 0 <= i < |s| ==> s[i].startTime != k
  {
    if s != [] {
      StartingAtEmpty(s[1..], k);
      assert forall i :: 1 <= i < |s| ==> s[i] == s[1..][i - 1];
    }
  }

  lemma {:induction false} StartingAtAppend(a: seq<Note>, b: seq<Note>, k: real)
    ensures StartingAt(a + b, k) == StartingAt(a, k) + StartingAt(b, k)
  {
    if a == [] {
      assert a + b == b;
    } else {
      var a0 := if a[0].startTime == k then [a[0]] else [];
      assert (a + b)[0] == a[0] && (a + b)[1..] == a[1..] + b;
      StartingAtAppend(a[1..], b, k);
      calc {
        StartingAt(a + b, k);
        a0 + StartingAt(a[1..] + b, k);
        a0 + (StartingAt(a[1..], k) + StartingAt(b, k));
        (a0 + StartingAt(a[1..], k)) + StartingAt(b, k);
      }
    }
  }

  lemma {:induction false} StartingAtReversed(s: seq<Note>, k: real)
    ensures StartingAt(Reversed(s), k) == Reversed(StartingAt(s, k))
  {
    if s != [] {
      var d, l := s[..|s| - 1], s[|s| - 1];
      assert s == d + [l];
      StartingAtReversed(d, k);
      StartingAtAppend(d, [l], k);
      assert Reversed(s) == [l] + Reversed(d);
      assert StartingAt(Reversed(s), k)
          == (if l.startTime == k then [l] else []) + StartingAt(Reversed(d), k) by {
        assert (Reversed(s))[1..] == Reversed(d);
      }
      if l.startTime == k {
        ReversedSnoc(StartingAt(d, k), l);
      } else {
        assert StartingAt([l], k) == [];
        assert StartingAt(s, k) == StartingAt(d, k);
      }
    }
  }

  /** Inserting keeps the notes that tie on a start time in arrival order. */
  lemma {:induction false} InsertStable(x: Note, r: seq<Note>, k: real)
    requires SortedDesc(r)
    ensures StartingAt(Insert(x, r), k) == StartingAt(r + [x], k)
  {
    if r == [] {
      assert r + [x] == [x];
    } else if x.startTime > r[0].startTime {
      InsertStableFront(x, r, k);
    } else {
      InsertStable(x, r[1..], k);
      InsertStableStep(x, r, k);
    }
  }

  lemma InsertStableFront(x: Note, r: seq<Note>, k: real)
    requires SortedDesc(r) && r != [] && x.startTime > r[0].startTime
    ensures StartingAt([x] + r, k) == StartingAt(r + [x], k)
  {
    StartingAtAppend(r, [x], k);
    StartingAtAppend([x], r, k);
    if x.startTime == k {
      StartingAtEmpty(r, k);
    }
  }

  lemma InsertStableStep(x: Note, r: seq<Note>, k: real)
    requires r != [] && x.startTime <= r[0].startTime
    requires StartingAt(Insert(x, r[1..]), k) == StartingAt(r[1..] + [x], k)
    ensures StartingAt(Insert(x, r), k) == StartingAt(r + [x], k)
  {
    assert Insert(x, r) == [r[0]] + Insert(x, r[1..]);
    StartingAtAppend([r[0]], Insert(x, r[1..]), k);
    StartingAtAppend([r[0]], r[1..] + [x], k);
    assert [r[0]] + (r[1..] + [x]) == r + [x];
  }

  /** The sort is stable: for every start time, the notes at that time keep their order. */
  lemma {:induction false} SortDescStable(s: seq<Note>, k: real)
    ensures StartingAt(SortDesc(s), k) == StartingAt(s, k)
  {
    if s != [] {
      var d, l := s[..|s| - 1], s[|s| - 1];
      assert s == d + [l];
      SortDescStable(d, k);
      InsertStable(l, SortDesc(d), k);
      StartingAtAppend(SortDesc(d), [l], k);
      StartingAtAppend(d, [l], k);
    }
  }

  /**
   * The list `pop_notes(t)` leaves behind: it pops from the end while the
   * last note has `start_time <= t`.
   */
  function Keep(s: seq<Note>, t: real): (r: seq<Note>)
    ensures |r| <= |s| && r == s[..|r|]
    ensures r == [] || r[|r| - 1].startTime > t
  {
    if s == [] || s[|s| - 1].startTime > t then s
    else Keep(s[..|s| - 1], t)
  }

  /**
   * The list `pop_notes(t)` returns: the notes it popped, in popping order,
   * which is the end of the list reversed.
   */
  function Take(s: seq<Note>, t: real): (r: seq<Note>)
    ensures forall i :: 0 <= i < |r| ==> r[i].startTime <= t
  {
    if s == [] || s[|s| - 1].startTime > t then []
    else [s[|s| - 1]] + Take(s[..|s| - 1], t)
  }

  /** What a pop returns is the tail of the list it leaves behind, reversed. */
  lemma {:induction false} TakeIsReversedTail(s: seq<Note>, t: real)
    ensures Take(s, t) == Reversed(s[|Keep(s, t)|..])
  {
    if s != [] && s[|s| - 1].startTime <= t {
      var d := s[..|s| - 1];
      var m := |Keep(s, t)|;
      TakeIsReversedTail(d, t);
      assert s[m..][..|s| - 1 - m] == d[m..];
    }
  }

  /**
   * On a primed (latest-first) list, a pop at time `t` splits the notes
   * exactly: everything returned is due, everything left is not, the
   * returned notes come earliest first, the remainder stays primed, and no
   * note is lost or duplicated.
   */
  lemma PopSplit(s: seq<Note>, t: real)
    requires SortedDesc(s)
    ensures forall x :: x in Take(s, t) ==> x.startTime <= t
    ensures forall x :: x in Keep(s, t) ==> x.startTime > t
    ensures SortedAsc(Take(s, t)) && SortedDesc(Keep(s, t))
    ensures multiset(Take(s, t)) + multiset(Keep(s, t)) == multiset(s)
  {
    PopKeepsEveryNote(s, t);
    KeepNotDue(s, t);
    TakeAscending(s, t);
  }

  /** A pop loses and duplicates nothing: it only moves notes from the list to its result. */
  lemma PopKeepsEveryNote(s: seq<Note>, t: real)
    ensures multiset(Take(s, t)) + multiset(Keep(s, t)) == multiset(s)
  {
    var keep := Keep(s, t);
    var due := s[|keep|..];
    TakeIsReversedTail(s, t);
    assert s == keep + due;
  }

  lemma KeepNotDue(s: seq<Note>, t: real)
    requires SortedDesc(s)
    ensures forall x :: x in Keep(s, t) ==> x.startTime > t
    ensures SortedDesc(Keep(s, t))
  {
    var keep := Keep(s, t);
    forall i | 0 <= i < |keep|
      ensures keep[i].startTime > t
    {
      assert s[i].startTime >= s[|keep| - 1].startTime;
    }
  }

  lemma TakeAscending(s: seq<Note>, t: real)
    requires SortedDesc(s)
    ensures SortedAsc(Take(s, t))
  {
    var due := s[|Keep(s, t)|..];
    TakeIsReversedTail(s, t);
    forall i, j | 0 <= i < j < |due|
      ensures Reversed(due)[i].startTime <= Reversed(due)[j].startTime
    {
      ReversedAt(due, i);
      ReversedAt(due, j);
    }
  }

  /**
   * Popping at `t1` and then at a later `t2` returns, together, what one pop
   * at `t2` returns, and leaves the same list.
   */
  lemma {:induction false} SuccessivePops(s: seq<Note>, t1: real, t2: real)
    requires t1 <= t2
    ensures Take(s, t1) + Take(Keep(s, t1), t2) == Take(s, t2)
    ensures Keep(Keep(s, t1), t2) == Keep(s, t2)
  {
    if s != [] && s[|s| - 1].startTime <= t1 {
      SuccessivePops(s[..|s| - 1], t1, t2);
    }
  }

  /** A second pop at the same time returns nothing and changes nothing. */
  lemma PopAgain(s: seq<Note>, t: real)
    ensures Take(Keep(s, t), t) == []
    ensures Keep(Keep(s, t), t) == Keep(s, t)
  {
  }

  /** Non-decreasing query times. */
  ghost predicate Ascending(ts: seq<real>)
  {
    forall i, j :: 0 <= i < j < |ts| ==> ts[i] <= ts[j]
  }

  /** Everything a series of pops at times `ts` returns, concatenated. */
  function Pops(s: seq<Note>, ts: seq<real>): (r: seq<Note>)
  {
    if ts == [] then [] else Take(s, ts[0]) + Pops(Keep(s, ts[0]), ts[1..])
  }

  /** What a series of pops at times `ts` leaves held. */
  function Remaining(s: seq<Note>, ts: seq<real>): (r: seq<Note>)
  {
    if ts == [] then s else Remaining(Keep(s, ts[0]), ts[1..])
  }

  /**
   * Pops at non-decreasing times hand out, between them, exactly what one pop
   * at the last time would: no note is skipped or returned twice.
   */
  lemma {:induction false} PopSeries(s: seq<Note>, ts: seq<real>)
    requires |ts| > 0 && Ascending(ts)
    ensures Pops(s, ts) == Take(s, ts[|ts| - 1])
    ensures Remaining(s, ts) == Keep(s, ts[|ts| - 1])
  {
    if |ts| == 1 {
      assert Pops(Keep(s, ts[0]), ts[1..]) == [];
    } else {
      PopSeries(Keep(s, ts[0]), ts[1..]);
      SuccessivePops(s, ts[0], ts[|ts| - 1]);
    }
  }

  /**
   * Notes that tie on their start time are returned in reverse insertion
   * order: the sort keeps them in arrival order and the pop takes them from
   * the end.
   */
  lemma TiesReversed(s: seq<Note>, t: real, k: real)
    requires k <= t
    ensures StartingAt(Take(SortDesc(s), t), k) == Reversed(StartingAt(s, k))
  {
    var r := SortDesc(s);
    var keep := Keep(r, t);
    var due := r[|keep|..];
    assert r == keep + due;
    StartingAtAppend(keep, due, k);
    assert StartingAt(keep, k) == [] by {
      KeepNotDue(r, t);
      StartingAtEmpty(keep, k);
    }
    assert StartingAt(r, k) == StartingAt(due, k);
    TakeIsReversedTail(r, t);
    StartingAtReversed(due, k);
    SortDescStable(s, k);
    calc {
      StartingAt(Take(r, t), k);
      StartingAt(Reversed(due), k);
      Reversed(StartingAt(due, k));
      Reversed(StartingAt(r, k));
      Reversed(StartingAt(s, k));
    }
  }

  /** The pending-note store: a list of notes and whether it is sorted for popping. */
  class NoteManager {
    var notes: seq<Note>
    var primed: bool

    /** While primed, the list is latest-first, so its due notes are at the end. */
    ghost predicate Valid()
      reads this
    {
      primed ==> SortedDesc(notes)
    }

    /** The list `pop_notes` pops from: the held list, sorted first unless primed. */
    ghost function Ready(): seq<Note>
      reads this
    {
      if primed then notes else SortDesc(notes)
    }

    constructor ()
      ensures Valid() && notes == [] && !primed
    {
      notes := [];
      primed := false;
    }

    method Add(note: Note)
      requires Valid()
      modifies this
      ensures Valid() && !primed
      ensures notes == old(notes) + [note]
    {
      notes := notes + [note];
      primed := false;
    }

    method Prime()
      modifies this
      ensures Valid() && primed
      ensures notes == SortDesc(old(notes))
    {
      notes := SortDesc(notes);
      primed := true;
    }

    method PopNotes(t: real) returns (popped: seq<Note>)
      requires Valid()
      modifies this
      ensures Valid() && primed
      ensures popped == Take(old(Ready()), t) && notes == Keep(old(Ready()), t)
      ensures forall x :: x in popped ==> x.startTime <= t
      ensures forall x :: x in notes ==> x.startTime > t
      ensures SortedAsc(popped)
      ensures multiset(popped) + multiset(notes) == multiset(old(notes))
    {
      if !primed {
        Prime();
      }
      ghost var s := notes;
      popped := [];
      while |notes| > 0 && t >= notes[|notes| - 1].startTime
        invariant Take(s, t) == popped + Take(notes, t)
        invariant Keep(s, t) == Keep(notes, t)
        invariant primed
        decreases |notes|
      {
        popped := popped + [notes[|notes| - 1]];
        notes := notes[..|notes| - 1];
      }
      PopSplit(s, t);
    }
  }
}
