# Note scheduling and sprite lifecycle of the AudioVisual keyboard demo

`keyboard_demo.py` turns an audio file into transcribed notes (onset, duration,
MIDI key). It shows each note as a red bar on a virtual keyboard that fades out
while the audio plays. This project models the part of that program that has
its own logic:

- **`Note` and `NoteManager`** (`notes.dfy`, module `NoteSchedule`). The store
  holds pending notes in a list. `add` appends a note and clears `primed`.
  `prime` stable-sorts the list by descending start time. `pop_notes(t)` primes
  if needed, then pops from the end of the list every note with
  `start_time <= t`. `NoteManager` is a class whose `notes: seq<Note>` and
  `primed: bool` fields are updated in place. `PopNotes` keeps its `while`
  loop. The pure functions `SortDesc`, `Keep` and `Take` give the sorted list,
  the list a pop leaves and the list a pop returns.
- **`Sprite`** (`sprites.dfy`, module `Sprites`). `hasExpired` is a strict
  comparison with the end time. The fade factor computed in `draw` is
  `1 - (t - (end - dur)) / dur`, clamped with `min(max(0, x), 255)`. It is
  modelled over `real`, as an idealisation of Python floats.
- **`Control.update`** (`control.dfy`, module `KeyboardControl`). The per-frame
  step first scans the live sprites and, only if one has expired, rebuilds the
  list without the expired ones. It then pops the due notes and appends one
  red sprite per note, in pop order. `Control` is a class with the
  `sprites: seq<Sprite>` field that `update` reassigns. The note store and the
  screen size are fixed fields. The frame time is one parameter `t`.
- **Note ingestion.** The `enumerate` loop in the entry point numbers the
  analysed triples 0, 1, 2, … in input order and `add`s each one
  (`LoadNotes`, `Enumerated`).

What is proved:

- A pop at `t` returns only notes with `start_time <= t` and keeps only notes
  with `start_time > t`. The notes come out earliest first. Returned and kept
  notes together are a permutation of the notes held before the call.
- Pops at non-decreasing times hand out, between them, exactly what one pop at
  the last time would. A second pop at the same time returns nothing.
- The sort is stable. So notes that share a start time come out of a pop in
  reverse insertion order.
- `hasExpired(t)` is false at the end time and true after it.
- The fade factor always lies in [0, 255]. During the note it lies in [0, 1]:
  it is 1 at the start and 0 at the end. It never increases over time, and it
  is 0 once the sprite has expired.
- `update` keeps exactly the unexpired sprites, in order. It leaves the list
  as it was when none has expired. It then appends the new sprites after them.
- Ingested notes get ids 0, 1, 2, … in input order.

Three behaviours of the code are easy to miss:

- Notes that tie on their start time are returned in **reverse** insertion
  order. Ids grow in insertion order, so ties come out in descending id order
  (`TiesReversed`, `ThreeNotes`).
- The fade factor's upper clamp is 255, not 1. Before a note's start the
  factor exceeds 1 (`IntensityBeforeStart`). A sprite is only created once its
  note's start has passed, so with a monotonic clock this never happens in the
  running program.
- Ingestion does no validation and raises no error. `duration > 0` is
  required only by `Intensity` and the lemmas about it, because `draw` divides
  by the duration; ingestion and the note store accept any duration.

## Model

| member | source | states |
|---|---|---|
| `NoteSchedule.SortDesc` | keyboard_demo.py:45-47 | the primed list is a permutation of the held list, sorted by non-increasing start time |
| `NoteSchedule.SortDescStable` | keyboard_demo.py:46 | the sort is stable: for every start time, the notes with that time keep their relative order |
| `NoteSchedule.Keep` | keyboard_demo.py:53-55 | what a pop leaves is a prefix of the list, and its last note (if any) is not due |
| `NoteSchedule.Take` | keyboard_demo.py:53-56 | every note a pop returns has `start_time <= t` |
| `NoteSchedule.TakeIsReversedTail` | keyboard_demo.py:54-55 | a pop returns the rest of the list after what it leaves, last note first |
| `NoteSchedule.PopSplit` | keyboard_demo.py:49-56 | on a primed list, returned notes are due and sorted earliest first; kept notes are not due and stay primed; nothing is lost or duplicated |
| `NoteSchedule.PopKeepsEveryNote` | keyboard_demo.py:54-55 | returned plus kept notes are, as a multiset, exactly the notes held before the pop |
| `NoteSchedule.KeepNotDue` | keyboard_demo.py:54 | on a primed list every kept note starts after `t`, and the kept list stays primed |
| `NoteSchedule.TakeAscending` | keyboard_demo.py:55 | on a primed list the returned notes come in non-decreasing start time |
| `NoteSchedule.SuccessivePops` | keyboard_demo.py:49-56 | a pop at `t1` then a pop at `t2 >= t1` return together what one pop at `t2` returns, and leave the same list |
| `NoteSchedule.PopAgain` | keyboard_demo.py:49-56 | a second pop at the same time returns nothing and changes nothing |
| `NoteSchedule.PopSeries` | keyboard_demo.py:49-56 | pops at non-decreasing times return, concatenated, exactly what one pop at the last time returns: no note is skipped or repeated |
| `NoteSchedule.TiesReversed` | keyboard_demo.py:46-55 | the due notes that share a start time come out in reverse insertion order |
| `NoteSchedule.NoteManager.constructor` | keyboard_demo.py:37-39 | a new store is empty and not primed |
| `NoteSchedule.NoteManager.Add` | keyboard_demo.py:41-43 | appends exactly the given note and clears `primed` |
| `NoteSchedule.NoteManager.Prime` | keyboard_demo.py:45-47 | replaces the list by its stable descending sort and sets `primed` |
| `NoteSchedule.NoteManager.PopNotes` | keyboard_demo.py:49-56 | primes if needed, returns the due notes earliest first and keeps the rest primed; returned and kept notes are a permutation of the held ones |
| `Sprites.HasExpired` | keyboard_demo.py:147-148 | a sprite is still live at its expiry time; a sprite that lasts as long as its note has expired only after the note has ended |
| `Sprites.ExpiryIsStrict` | keyboard_demo.py:147-148 | `hasExpired(t)` holds iff `t > end_time`: false at the end time, and it stays true once true |
| `Sprites.Intensity` | keyboard_demo.py:141-142 | the clamped fade factor always lies in [0, 255] |
| `Sprites.IntensityOverLifetime` | keyboard_demo.py:141-142 | between start and end the factor lies in [0, 1]; it is 1 at the start and 0 at the end |
| `Sprites.IntensityNonIncreasing` | keyboard_demo.py:141-142 | the factor never increases as time goes on |
| `Sprites.ExpiredIsDark` | keyboard_demo.py:141-148 | once a sprite has expired its factor is 0 |
| `Sprites.IntensityBeforeStart` | keyboard_demo.py:142 | before the start the upper clamp is 255, not 1: one duration early the factor is 2 |
| `KeyboardControl.TruncDiv` | keyboard_demo.py:186 | `int()` of the quotient rounds toward zero: the magnitude is the floor of the exact magnitude and the sign is kept |
| `KeyboardControl.NewSprite` | keyboard_demo.py:186-189 | the sprite built for a popped note carries that note and expires when the note ends (`start_time + duration`) |
| `KeyboardControl.NewSpriteShape` | keyboard_demo.py:186-189 | a new sprite is red, 50 high, `width div 110` wide, at `height div 2` and at `int(width*midi/110.0)`; it lives exactly as long as its note |
| `KeyboardControl.KeyOnScreen` | keyboard_demo.py:186 | keys 0 to 110 are placed between the left and right edges of the screen |
| `KeyboardControl.NewSprites` | keyboard_demo.py:185-190 | one new sprite per popped note, in pop order |
| `KeyboardControl.Unexpired` | keyboard_demo.py:182 | no sprite left by pruning has expired |
| `KeyboardControl.UnexpiredKeepsLive` | keyboard_demo.py:182 | pruning keeps a sprite iff it was live and not expired |
| `KeyboardControl.UnexpiredAppend` | keyboard_demo.py:182 | pruning works piecewise, so surviving sprites keep their relative order |
| `KeyboardControl.UnexpiredNone` | keyboard_demo.py:174-182 | when no sprite has expired, the rebuilt list equals the old one |
| `KeyboardControl.Control.constructor` | keyboard_demo.py:152-159 | a new controller has no sprites and holds the given note store |
| `KeyboardControl.Control.Update` | keyboard_demo.py:172-190 | the new sprite list is the unexpired old sprites in order, then one sprite per note popped at `t`; the store is left primed with the undue notes |
| `KeyboardControl.Control.AddSprites` | keyboard_demo.py:184-190 | appends one sprite per note, in the notes' order |
| `KeyboardControl.Enumerated` | keyboard_demo.py:238-239 | note `i` carries id `i` and the `i`-th analysed triple |
| `KeyboardControl.LoadNotes` | keyboard_demo.py:237-239 | a fresh store holding the numbered notes in input order, not primed |
| `KeyboardControl.ThreeNotes` | keyboard_demo.py:45-56 | notes (1.0, 0.5), (1.0, 0.3), (2.0, 1.0): a pop at 1.0 returns ids 1 then 0, at 1.9 nothing, at 2.0 id 2 |

## Left out

- `loadSound`, `startSound` and `analyzeAudio` (keyboard_demo.py:59-123): an ffmpeg subprocess, audioop resampling, the pygame mixer and the Vamp plugin. These are I/O and foreign library calls. The analysis output is the `analysis` parameter of `LoadNotes`.
- `Sprite.get_event` and `Sprite.update` (keyboard_demo.py:131-137): they do nothing.
- `Sprite.draw`'s colour scaling and `pg.draw.rect` call (keyboard_demo.py:144-145), and the `pg.Rect` built in the constructor: rendering. Only the fade factor is modelled.
- `Control.__init__` beyond the sprite list and the note store, plus `time`, `event_loop`, `draw`, `display_fps` and `main_loop` (keyboard_demo.py:152-221): the display surface, the clock, dirty-rectangle blitting, the FPS text and pygame event polling. The screen's width and height become constructor parameters, and the clock reading becomes the parameter `t`.
- `KeyboardControl.Control.Update`: the source reads the clock afresh at every `hasExpired` call and for `pop_notes`. The model uses one time `t` for the whole frame. The log line printed for each new sprite is left out.
- Python floats are modelled as exact reals. `int(width * midi / 110.0)` is modelled as exact division rounded toward zero, without float rounding.
- The entry point's pygame set-up and tear-down (keyboard_demo.py:224-248), apart from the id-assigning loop.
- `Note.__repr__` (keyboard_demo.py:33-34): formatting for log output.
