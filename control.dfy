/**
 * The per-frame step of the keyboard visualiser (`Control.update` in
 * keyboard_demo.py) and the loop that numbers the analysed notes and hands
 * them to the note store.
 *
 * The frame time is one parameter `t`; the display surface is reduced to its
 * width and height in pixels.
 */
module KeyboardControl {
  import opened NoteSchedule
  import opened Sprites

  function Abs(a: int): (r: nat) { if a < 0 then -a else a }

  lemma DivBounds(a: nat, b: int)
    requires b > 0
    ensures 0 <= a / b && (a / b) * b <= a < (a / b + 1) * b
  {
    assert a == (a / b) * b + a % b;
  }

  /** Python's `int()` of an exact quotient by a positive divisor: rounds toward zero. */
  function TruncDiv(a: int, b: int): (q: int)
    requires b > 0
    ensures Abs(q) * b <= Abs(a) < (Abs(q) + 1) * b
    ensures (a >= 0 ==> q >= 0) && (a <= 0 ==> q <= 0)
  {
    DivBounds(Abs(a), b);
    if a >= 0 then a / b else -((-a) / b)
  }

  /**
   * The sprite `update` creates for a popped note on a `width` by `height`
   * screen.
   */
  function NewSprite(n: Note, width: nat, height: nat): (r: Sprite)
    ensures r.note == n && r.endTime == n.startTime + n.duration
    ensures n.duration > 0.0 ==> Lifetime(r)
  {
    Sprite((TruncDiv(width * n.midi, 110), height / 2), (width / 110, 50), (255, 0, 0), n.startTime + n.duration, n)
  }

  /**
   * A new sprite is red, 50 pixels tall and a 110th of the screen wide
   * (rounded down), half-way down the screen, at horizontal position
   * `int(width * midi / 110.0)`, which lies on the screen for keys 0 to 110,
   * and it lives exactly as long as its note.
   */
  lemma NewSpriteShape(n: Note, width: nat, height: nat)
    ensures NewSprite(n, width, height).note == n
    ensures NewSprite(n, width, height).endTime == n.startTime + n.duration
    ensures NewSprite(n, width, height).color == (255, 0, 0)
    ensures n.duration > 0.0 ==> Lifetime(NewSprite(n, width, height))
    ensures var r := NewSprite(n, width, height);
      r.size.0 * 110 <= width < (r.size.0 + 1) * 110 && r.size.1 == 50
    ensures var r := NewSprite(n, width, height);
      0 <= 2 * r.location.1 <= height <= 2 * r.location.1 + 1
    ensures var r := NewSprite(n, width, height);
      Abs(r.location.0) * 110 <= Abs(width * n.midi) < (Abs(r.location.0) + 1) * 110
    ensures 0 <= n.midi <= 110 ==> 0 <= NewSprite(n, width, height).location.0 <= width
  {
    DivBounds(width, 110);
    DivBounds(height, 2);
    if 0 <= n.midi <= 110 {
      KeyOnScreen(width, n.midi);
    }
  }

  /** Keys 0 to 110 are placed between the left and the right edge of the screen. */
  lemma KeyOnScreen(width: nat, midi: int)
    requires 0 <= midi <= 110
    ensures 0 <= TruncDiv(width * midi, 110) <= width
  {
    var q := TruncDiv(width * midi, 110);
    assert 0 <= width * midi <= width * 110 by {
      MulMonotone(width, midi, 110);
    }
    assert q * 110 <= width * 110;
  }

  lemma MulMonotone(w: nat, a: int, b: int)
    requires 0 <= a <= b
    ensures 0 <= w * a <= w * b
  {
    assert w * b == w * a + w * (b - a);
  }

  /** One new sprite per popped note, in the order the notes were popped. */
  function NewSprites(ns: seq<Note>, width: nat, height: nat): (r: seq<Sprite>)
    ensures |r| == |ns|
    ensures forall i :: 0 <= i < |ns| ==> r[i] == NewSprite(ns[i], width, height)
  {
    if ns == [] then []
    else NewSprites(ns[..|ns| - 1], width, height) + [NewSprite(ns[|ns| - 1], width, height)]
  }

  /** The list comprehension in `update`: the sprites not expired at `t`, in order. */
  function Unexpired(s: seq<Sprite>, t: real): (r: seq<Sprite>)
    ensures |r| <= |s|
    ensures forall i :: 0 <= i < |r| ==> !HasExpired(r[i], t)
  {
    if s == [] then []
    else (if HasExpired(s[0], t) then [] else [s[0]]) + Unexpired(s[1..], t)
  }

  /** When nothing has expired the comprehension rebuilds the same list. */
  lemma {:induction false} UnexpiredNone(s: seq<Sprite>, t: real)
    requires forall i :: 0 <= i < |s| ==> !HasExpired(s[i], t)
    ensures Unexpired(s, t) == s
  {
    if s != [] {
      UnexpiredNone(s[1..], t);
    }
  }

  /** Pruning keeps every live sprite, and only those. */
  lemma {:induction false} UnexpiredKeepsLive(s: seq<Sprite>, t: real, x: Sprite)
    ensures x in Unexpired(s, t) <==> x in s && !HasExpired(x, t)
  {
    if s != [] {
      UnexpiredKeepsLive(s[1..], t, x);
      assert s == [s[0]] + s[1..];
    }
  }

  /** Pruning works piece by piece, so surviving sprites keep their relative order. */
  lemma {:induction false} UnexpiredAppend(a: seq<Sprite>, b: seq<Sprite>, t: real)
    ensures Unexpired(a + b, t) == Unexpired(a, t) + Unexpired(b, t)
  {
    if a == [] {
      assert a + b == b;
    } else {
      var a0 := if HasExpired(a[0], t) then [] else [a[0]];
      assert (a + b)[0] == a[0] && (a + b)[1..] == a[1..] + b;
      UnexpiredAppend(a[1..], b, t);
      calc {
        Unexpired(a + b, t);
        a0 + Unexpired(a[1..] + b, t);
        a0 + (Unexpired(a[1..], t) + Unexpired(b, t));
        (a0 + Unexpired(a[1..], t)) + Unexpired(b, t);
      }
    }
  }

  /** The main loop's state that `update` touches: the live sprites and the note store. */
  class Control {
    var sprites: seq<Sprite>
    const noteMgr: NoteManager
    const width: nat
    const height: nat

    ghost predicate Valid()
      reads this, noteMgr
    {
      noteMgr.Valid()
    }

    constructor (noteMgr: NoteManager, width: nat, height: nat)
      requires noteMgr.Valid()
      ensures Valid() && sprites == []
      ensures this.noteMgr == noteMgr && this.width == width && this.height == height
    {
      this.noteMgr := noteMgr;
      this.width := width;
      this.height := height;
      sprites := [];
    }

    /**
     * One frame at time `t`: drop the expired sprites (rebuilding the list
     * only if one has expired), then pop the due notes and append a sprite
     * for each, in pop order. Sprites added here are not pruned until the
     * next frame.
     */
    method Update(t: real)
      requires Valid()
      modifies this, noteMgr
      ensures Valid() && noteMgr.primed
      ensures noteMgr.notes == Keep(old(noteMgr.Ready()), t)
      ensures sprites == Unexpired(old(sprites), t) + NewSprites(Take(old(noteMgr.Ready()), t), width, height)
    {
      var anyExpired := false;
      for i := 0 to |sprites|
        invariant anyExpired <==> exists j :: 0 <= j < i && HasExpired(sprites[j], t)
      {
        if HasExpired(sprites[i], t) {
          anyExpired := true;
        }
      }
      if anyExpired {
        sprites := Unexpired(sprites, t);
      } else {
        UnexpiredNone(sprites, t);
      }
      var popped := noteMgr.PopNotes(t);
      AddSprites(popped);
    }

    /** The second half of `update`: one new sprite per note, appended in order. */
    method AddSprites(notes: seq<Note>)
      modifies this
      ensures sprites == old(sprites) + NewSprites(notes, width, height)
    {
      ghost var kept := sprites;
      for i := 0 to |notes|
        invariant sprites == kept + NewSprites(notes[..i], width, height)
      {
        assert notes[..i + 1][..i] == notes[..i];
        sprites := sprites + [NewSprite(notes[i], width, height)];
      }
      assert notes[..|notes|] == notes;
    }
  }

  /**
   * The notes built from the analysis output `(start_time, duration, midi)`
   * with `enumerate`: ids count 0, 1, 2, ... in input order.
   */
  function Enumerated(analysis: seq<(real, real, int)>): (r: seq<Note>)
    ensures |r| == |analysis|
    ensures forall i :: 0 <= i < |r| ==>
      r[i].id == i && (r[i].startTime, r[i].duration, r[i].midi) == analysis[i]
  {
    if analysis == [] then []
    else
      var (startTime, duration, midi) := analysis[|analysis| - 1];
      Enumerated(analysis[..|analysis| - 1]) + [Note(|analysis| - 1, startTime, duration, midi)]
  }

  /** The loop in the program's entry point: a new store, then one `add` per analysed note. */
  method LoadNotes(analysis: seq<(real, real, int)>) returns (mgr: NoteManager)
    ensures fresh(mgr) && mgr.Valid() && !mgr.primed
    ensures mgr.notes == Enumerated(analysis)
  {
    mgr := new NoteManager();
    for i := 0 to |analysis|
      invariant mgr.Valid() && !mgr.primed
      invariant mgr.notes == Enumerated(analysis[..i])
    {
      assert analysis[..i + 1][..i] == analysis[..i];
      var (startTime, duration, midi) := analysis[i];
      mgr.Add(Note(i, startTime, duration, midi));
    }
    assert analysis[..|analysis|] == analysis;
  }

  /**
   * Three analysed notes, the first two starting together: a pop at 1.0
   * returns the second and then the first (reverse insertion order), a pop
   * at 1.9 returns nothing, and a pop at 2.0 returns the third.
   */
  lemma ThreeNotes()
    ensures var ns := Enumerated([(1.0, 0.5, 60), (1.0, 0.3, 64), (2.0, 1.0, 67)]);
      var r := SortDesc(ns);
      Take(r, 1.0) == [ns[1], ns[0]] &&
      Take(Keep(r, 1.0), 1.9) == [] &&
      Take(Keep(Keep(r, 1.0), 1.9), 2.0) == [ns[2]] &&
      Keep(Keep(Keep(r, 1.0), 1.9), 2.0) == []
  {
    var n0, n1, n2 := Note(0, 1.0, 0.5, 60), Note(1, 1.0, 0.3, 64), Note(2, 2.0, 1.0, 67);
    ThreeNotesPrimed(n0, n1, n2);
    ThreeNotesPopped(n0, n1, n2);
  }

  lemma ThreeNotesPrimed(n0: Note, n1: Note, n2: Note)
    requires n0 == Note(0, 1.0, 0.5, 60) && n1 == Note(1, 1.0, 0.3, 64) && n2 == Note(2, 2.0, 1.0, 67)
    ensures Enumerated([(1.0, 0.5, 60), (1.0, 0.3, 64), (2.0, 1.0, 67)]) == [n0, n1, n2]
    ensures SortDesc([n0, n1, n2]) == [n2, n0, n1]
  {
    TwoNotesPrimed(n0, n1);
    assert [n0, n1, n2][..2] == [n0, n1];
    assert Insert(n2, [n0, n1]) == [n2, n0, n1];
  }

  lemma TwoNotesPrimed(n0: Note, n1: Note)
    requires n0.startTime == n1.startTime
    ensures SortDesc([n0, n1]) == [n0, n1]
  {
    assert [n0, n1][..1] == [n0];
    assert [n0][..0] == [];
    assert SortDesc([n0]) == Insert(n0, []) == [n0];
    assert Insert(n1, [n0]) == [n0] + Insert(n1, []);
  }

  lemma ThreeNotesPopped(n0: Note, n1: Note, n2: Note)
    requires n0 == Note(0, 1.0, 0.5, 60) && n1 == Note(1, 1.0, 0.3, 64) && n2 == Note(2, 2.0, 1.0, 67)
    ensures Take([n2, n0, n1], 1.0) == [n1, n0] && Keep([n2, n0, n1], 1.0) == [n2]
    ensures Take([n2], 1.9) == [] && Keep([n2], 1.9) == [n2]
    ensures Take([n2], 2.0) == [n2] && Keep([n2], 2.0) == []
  {
    var r := [n2, n0, n1];
    assert r[..2] == [n2, n0];
    assert [n2, n0][..1] == [n2];
    assert [n2][..0] == [];
    assert Keep([n2, n0], 1.0) == Keep([n2], 1.0) == [n2];
    assert Take([n2, n0], 1.0) == [n0] + Take([n2], 1.0) == [n0];
    assert Take(r, 1.0) == [r[2]] + Take(r[..2], 1.0);
    assert Take([n2], 2.0) == [n2] + Take([], 2.0);
    assert Keep([n2], 2.0) == Keep([], 2.0);
  }
}
