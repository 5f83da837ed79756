/**
 * The list-selection widget of src/terminal.rs: a fixed list of items with an
 * optional cursor (`StatefulList`), and the key dispatch of `run_list_selection`,
 * which moves the cursor, returns the item under it, or ends with an error.
 * Drawing and the 250 ms input poll are left out; the events that arrive are an input.
 */
module Terminal {
  import opened Common

  // ---------------------------------------------------------------------------
  // Input events (the subset of crossterm's `Event` the dispatch looks at)
  // ---------------------------------------------------------------------------

  /** Key codes: the ones the dispatch names, and every other key collapsed into `OtherKey`. */
  datatype KeyCode = Char(c: char) | Enter | Left | Up | Down | OtherKey

  datatype Modifier = Shift | Control | Alt | Super | Hyper | Meta

  datatype KeyEventKind = Press | Repeat | Release

  datatype KeyEvent = KeyEvent(code: KeyCode, modifiers: set<Modifier>, kind: KeyEventKind)

  /** A key event, or any other terminal event (mouse, resize, focus, paste). */
  datatype Event = Key(key: KeyEvent) | OtherEvent

  /** A key press with the given code and modifiers. */
  function Pressed(code: KeyCode, modifiers: set<Modifier>): Event {
    Key(KeyEvent(code, modifiers, Press))
  }

  const NothingSelected := "Nothing selected"
  const InvalidSelection := "Invalid selection"
  /** The message of the panic raised when `items.len() - 1` underflows on an empty list. */
  const SubtractOverflow := "attempt to subtract with overflow"

  /**
   * Where one event (or a run of events) leaves the widget: still running with a
   * cursor, returned an item, returned an error, or panicked.
   */
  datatype Outcome<T> =
    | Running(cursor: Option<nat>)
    | Selected(item: T)
    | Failed(message: string)
    | Panicked(message: string)

  // ---------------------------------------------------------------------------
  // The cursor rules of `next` and `previous`
  // ---------------------------------------------------------------------------

  /** The cursor is absent or points at an item. */
  predicate InBounds(cursor: Option<nat>, len: nat) {
    cursor.None? || cursor.value < len
  }

  /**
   * The cursor after `next` on a list of `len` items. A present cursor makes the
   * code compute `len - 1`, so the list must then be non-empty.
   */
  function NextCursor(cursor: Option<nat>, len: nat): (r: Option<nat>)
    requires len > 0 || cursor.None?
    ensures r.Some?
    ensures len > 0 ==> r.value < len
  {
    match cursor
    case Some(i) => if i >= len - 1 then Some(0) else Some(i + 1)
    case None => Some(0)
  }

  /**
   * The cursor after `previous` on a list of `len` items. From no cursor it goes
   * to the first item, not the last; a cursor past the end only steps back by one.
   * Only a cursor at 0 makes the code compute `len - 1`, so only then must the
   * list be non-empty.
   */
  function PreviousCursor(cursor: Option<nat>, len: nat): (r: Option<nat>)
    requires len > 0 || cursor != Some(0)
    ensures r.Some?
    ensures len > 0 && (cursor.None? || cursor.value <= len) ==> r.value < len
  {
    match cursor
    case Some(i) => if i == 0 then Some(len - 1) else Some(i - 1)
    case None => Some(0)
  }

  /** The cursor after `k` calls of `next`. */
  function NextTimes(cursor: Option<nat>, len: nat, k: nat): (r: Option<nat>)
    requires len > 0
    decreases k
  {
    if k == 0 then cursor else NextCursor(NextTimes(cursor, len, k - 1), len)
  }

  // ---------------------------------------------------------------------------
  // StatefulList
  // ---------------------------------------------------------------------------

  /** A fixed sequence of items and the list state's selected index. */
  class StatefulList<T> {
    const items: seq<T>
    var cursor: Option<nat>

    /** `with_items`: the default list state has nothing selected. */
    constructor WithItems(items: seq<T>)
      ensures this.items == items && cursor == None
    {
      this.items := items;
      cursor := None;
    }

    /** The list state's `select`: sets the cursor to `index`, whatever it is. */
    method Select(index: Option<nat>)
      modifies this
      ensures cursor == index
    {
      cursor := index;
    }

    /** Moves the cursor forward, wrapping from the last item to the first. */
    method Next()
      requires |items| > 0 || cursor.None?
      modifies this
      ensures cursor == NextCursor(old(cursor), |items|)
    {
      var i: nat;
      match cursor {
        case Some(j) =>
          if j >= |items| - 1 {
            i := 0;
          } else {
            i := j + 1;
          }
        case None =>
          i := 0;
      }
      cursor := Some(i);
    }

    /** Moves the cursor backward, wrapping from the first item to the last. */
    method Previous()
      requires |items| > 0 || cursor != Some(0)
      modifies this
      ensures cursor == PreviousCursor(old(cursor), |items|)
    {
      var i: nat;
      match cursor {
        case Some(j) =>
          if j == 0 {
            i := |items| - 1;
          } else {
            i := j - 1;
          }
        case None =>
          i := 0;
      }
      cursor := Some(i);
    }

    /** Clears the cursor. */
    method Unselect()
      modifies this
      ensures cursor == None
    {
      cursor := None;
    }
  }

  // ---------------------------------------------------------------------------
  // The key dispatch of `run_list_selection`
  // ---------------------------------------------------------------------------

  /**
   * One event of the selection loop, from cursor `cursor` over `items`. Only key
   * presses act; 'q' and Control-c (with exactly Control held) fail with
   * "Nothing selected", Enter returns the item under the cursor, Left, Down and Up
   * move the cursor, and everything else changes nothing.
   */
  function Step<T>(items: seq<T>, cursor: Option<nat>, ev: Event): (o: Outcome<T>)
    ensures o.Selected? ==> cursor.Some? && cursor.value < |items| && o.item == items[cursor.value]
    ensures o.Failed? ==> o.message == NothingSelected || o.message == InvalidSelection
    ensures o.Panicked? ==> |items| == 0 && cursor.Some?
    ensures o.Running? && o.cursor != cursor ==> ev.Key? && ev.key.kind == Press
  {
    if !(ev.Key? && ev.key.kind == Press) then Running(cursor)
    else
      match ev.key.code
      case Char(c) =>
        if c == 'q' then Failed(NothingSelected)
        else if c == 'c' && ev.key.modifiers == {Control} then Failed(NothingSelected)
        else Running(cursor)
      case Enter =>
        if cursor.None? then Failed(NothingSelected)
        else if cursor.value < |items| then Selected(items[cursor.value])
        else Failed(InvalidSelection)
      case Left => Running(None)
      case Down =>
        if |items| == 0 && cursor.Some? then Panicked(SubtractOverflow)
        else Running(NextCursor(cursor, |items|))
      case Up =>
        if |items| == 0 && cursor == Some(0) then Panicked(SubtractOverflow)
        else Running(PreviousCursor(cursor, |items|))
      case OtherKey => Running(cursor)
  }

  /** The selection loop over a finite sequence of events, stopping at the first outcome that ends it. */
  function Run<T>(items: seq<T>, cursor: Option<nat>, events: seq<Event>): (o: Outcome<T>)
    ensures o.Selected? ==> o.item in items
    ensures o.Failed? ==> o.message == NothingSelected || o.message == InvalidSelection
    ensures o.Panicked? ==> |items| == 0
    decreases |events|
  {
    if events == [] then Running(cursor)
    else
      match Step(items, cursor, events[0])
      case Running(c) => Run(items, c, events[1..])
      case other => other
  }

  /** Continues a run that ended in `o` with more events. */
  function Continue<T>(items: seq<T>, o: Outcome<T>, events: seq<Event>): Outcome<T> {
    if o.Running? then Run(items, o.cursor, events) else o
  }

  /**
   * `run_list_selection` without the drawing: builds the list, sets the cursor to
   * the first index (even on an empty list), and dispatches the events in order.
   * When the events run out the loop is still running and would poll again.
   */
  method RunListSelection<T>(items: seq<T>, events: seq<Event>) returns (r: Outcome<T>)
    ensures r == Run(items, Some(0), events)
  {
    var list := new StatefulList.WithItems(items);
    list.Select(Some(0));
    var k := 0;
    while k < |events|
      invariant 0 <= k <= |events|
      invariant list.items == items
      invariant Run(items, Some(0), events) == Run(items, list.cursor, events[k..])
    {
      assert events[k..][0] == events[k] && events[k..][1..] == events[k + 1..];
      var ev := events[k];
      if ev.Key? && ev.key.kind == Press {
        match ev.key.code {
          case Char(c) =>
            if c == 'q' {
              return Failed(NothingSelected);
            }
            if c == 'c' && ev.key.modifiers == {Control} {
              return Failed(NothingSelected);
            }
          case Enter =>
            if list.cursor.None? {
              return Failed(NothingSelected);
            }
            var i := list.cursor.value;
            if i >= |list.items| {
              return Failed(InvalidSelection);
            }
            return Selected(list.items[i]);
          case Left =>
            list.Unselect();
          case Down =>
            if |list.items| == 0 && list.cursor.Some? {
              return Panicked(SubtractOverflow);
            }
            list.Next();
          case Up =>
            if |list.items| == 0 && list.cursor == Some(0) {
              return Panicked(SubtractOverflow);
            }
            list.Previous();
          case OtherKey =>
        }
      }
      k := k + 1;
    }
    r := Running(list.cursor);
  }

  // ---------------------------------------------------------------------------
  // Properties of the cursor rules
  // ---------------------------------------------------------------------------

  /** `next` from an index before the last steps forward; from the last index or beyond it wraps to 0. */
  lemma NextCursorCases(i: nat, len: nat)
    requires len > 0
    ensures i < len - 1 ==> NextCursor(Some(i), len) == Some(i + 1)
    ensures i >= len - 1 ==> NextCursor(Some(i), len) == Some(0)
    ensures NextCursor(None, len) == Some(0)
  {
  }

  /** `previous` from 0 wraps to the last index, from i > 0 steps back, and from no cursor goes to 0. */
  lemma PreviousCursorCases(i: nat, len: nat)
    requires len > 0
    ensures PreviousCursor(Some(0), len) == Some(len - 1)
    ensures i > 0 ==> PreviousCursor(Some(i), len) == Some(i - 1)
    ensures PreviousCursor(None, len) == Some(0)
  {
  }

  /** On an in-bounds cursor, `next` is the successor modulo the length. */
  lemma NextIsSuccessorModulo(i: nat, len: nat)
    requires i < len
    ensures NextCursor(Some(i), len) == Some((i + 1) % len)
  {
    if i + 1 < len {
      assert (i + 1) % len == i + 1;
    } else {
      assert (i + 1) % len == 0;
    }
  }

  /** On an in-bounds cursor, `previous` is the predecessor modulo the length. */
  lemma PreviousIsPredecessorModulo(i: nat, len: nat)
    requires i < len
    ensures PreviousCursor(Some(i), len) == Some((i + len - 1) % len)
  {
    if i == 0 {
      assert (len - 1) % len == len - 1;
    } else {
      assert (i + len - 1) % len == i - 1;
    }
  }

  /** `previous` undoes `next`, and `next` undoes `previous`, on an in-bounds cursor. */
  lemma PreviousUndoesNext(i: nat, len: nat)
    requires i < len
    ensures PreviousCursor(NextCursor(Some(i), len), len) == Some(i)
    ensures NextCursor(PreviousCursor(Some(i), len), len) == Some(i)
  {
  }

  /** Clearing the cursor and then calling `next` selects the first item. */
  lemma UnselectThenNext(len: nat)
    ensures NextCursor(None, len) == Some(0)
  {
  }

  /** `a + b` calls of `next` are `a` calls followed by `b` more. */
  lemma {:induction false} NextTimesAdd(cursor: Option<nat>, len: nat, a: nat, b: nat)
    requires len > 0
    ensures NextTimes(cursor, len, a + b) == NextTimes(NextTimes(cursor, len, a), len, b)
    decreases b
  {
    if b > 0 {
      NextTimesAdd(cursor, len, a, b - 1);
    }
  }

  /** Below the last index, `k` calls of `next` climb by `k`. */
  lemma {:induction false} NextTimesClimbs(i: nat, len: nat, k: nat)
    requires i + k < len
    ensures NextTimes(Some(i), len, k) == Some(i + k)
    decreases k
  {
    if k > 0 {
      NextTimesClimbs(i, len, k - 1);
    }
  }

  /** From an in-bounds index `i`, `len - i` calls of `next` reach 0. */
  lemma NextTimesReachesZero(i: nat, len: nat)
    requires i < len
    ensures NextTimes(Some(i), len, len - i) == Some(0)
  {
    NextTimesClimbs(i, len, len - i - 1);
  }

  /** From an in-bounds cursor, `len` calls of `next` come back to the start. */
  lemma NextCycle(i: nat, len: nat)
    requires i < len
    ensures NextTimes(Some(i), len, len) == Some(i)
  {
    NextTimesAdd(Some(i), len, len - i, i);
    NextTimesReachesZero(i, len);
    if i > 0 {
      NextTimesClimbs(0, len, i);
    }
  }

  /** `next` and `previous` keep an in-bounds cursor in bounds, and `next` brings any cursor into bounds. */
  lemma MovesStayInBounds(cursor: Option<nat>, len: nat)
    requires len > 0 && InBounds(cursor, len)
    ensures InBounds(NextCursor(cursor, len), len)
    ensures InBounds(PreviousCursor(cursor, len), len)
  {
  }

  /** `previous` does not repair a cursor past the end: it steps back by one only. */
  lemma PreviousPastEnd(i: nat, len: nat)
    requires 0 < len < i
    ensures PreviousCursor(Some(i), len) == Some(i - 1)
    ensures !InBounds(PreviousCursor(Some(i), len), len)
  {
  }

  // ---------------------------------------------------------------------------
  // Properties of one event
  // ---------------------------------------------------------------------------

  /** Enter on an in-bounds cursor returns exactly the item under it. */
  lemma EnterReturnsItem<T>(items: seq<T>, i: nat, modifiers: set<Modifier>)
    requires i < |items|
    ensures Step(items, Some(i), Pressed(Enter, modifiers)) == Selected(items[i])
  {
  }

  /** Enter with no cursor ends with "Nothing selected"; past the end, with "Invalid selection". */
  lemma EnterWithoutItemFails<T>(items: seq<T>, cursor: Option<nat>, modifiers: set<Modifier>)
    requires !InBounds(cursor, |items|) || cursor.None?
    ensures cursor.None? ==> Step(items, cursor, Pressed(Enter, modifiers)) == Failed(NothingSelected)
    ensures cursor.Some? ==> Step(items, cursor, Pressed(Enter, modifiers)) == Failed(InvalidSelection)
  {
  }

  /** 'q' with any modifiers ends with "Nothing selected"; so does 'c' with exactly Control held. */
  lemma QuitKeysFail<T>(items: seq<T>, cursor: Option<nat>, modifiers: set<Modifier>)
    ensures Step(items, cursor, Pressed(Char('q'), modifiers)) == Failed(NothingSelected)
    ensures Step(items, cursor, Pressed(Char('c'), {Control})) == Failed(NothingSelected)
  {
  }

  /**
   * Events that change nothing: any event that is not a key press, 'c' without
   * exactly Control, any other character but 'q', and keys the dispatch does not name.
   */
  lemma IgnoredEvents<T>(items: seq<T>, cursor: Option<nat>, ev: Event)
    requires || !ev.Key?
             || ev.key.kind != Press
             || ev.key.code == OtherKey
             || (ev.key.code.Char? && ev.key.code.c != 'q'
                 && (ev.key.code.c != 'c' || ev.key.modifiers != {Control}))
    ensures Step(items, cursor, ev) == Running(cursor)
  {
  }

  /** Left clears the cursor; Down and Up move it by `next` and `previous` when the list is non-empty. */
  lemma MovementKeys<T>(items: seq<T>, cursor: Option<nat>, modifiers: set<Modifier>)
    ensures Step(items, cursor, Pressed(Left, modifiers)) == Running(None)
    ensures |items| > 0 ==> Step(items, cursor, Pressed(Down, modifiers)) == Running(NextCursor(cursor, |items|))
    ensures |items| > 0 ==> Step(items, cursor, Pressed(Up, modifiers)) == Running(PreviousCursor(cursor, |items|))
  {
  }

  /**
   * On an empty list, Down underflows whenever a cursor is present and Up only
   * from a cursor at 0; Up from a larger cursor steps back by one, and both go
   * to index 0 when no cursor is present.
   */
  lemma MovesOnEmptyList<T>(modifiers: set<Modifier>, i: nat)
    ensures Step<T>([], Some(i), Pressed(Down, modifiers)) == Panicked(SubtractOverflow)
    ensures Step<T>([], Some(0), Pressed(Up, modifiers)) == Panicked(SubtractOverflow)
    ensures Step<T>([], Some(i + 1), Pressed(Up, modifiers)) == Running(Some(i))
    ensures Step<T>([], None, Pressed(Down, modifiers)) == Running(Some(0))
    ensures Step<T>([], None, Pressed(Up, modifiers)) == Running(Some(0))
  {
  }

  // ---------------------------------------------------------------------------
  // Properties of whole runs
  // ---------------------------------------------------------------------------

  /** Running `a` and then `b` is running `a + b`. */
  lemma {:induction false} RunAppend<T>(items: seq<T>, cursor: Option<nat>, a: seq<Event>, b: seq<Event>)
    ensures Run(items, cursor, a + b) == Continue(items, Run(items, cursor, a), b)
    decreases |a|
  {
    if a == [] {
      assert a + b == b;
    } else {
      assert (a + b)[0] == a[0] && (a + b)[1..] == a[1..] + b;
      match Step(items, cursor, a[0])
      case Running(c) => RunAppend(items, c, a[1..], b);
      case _ =>
    }
  }

  /** Whatever was pressed before, a 'q' while the loop is running ends it with "Nothing selected". */
  lemma QuitAtAnyPoint<T>(items: seq<T>, cursor: Option<nat>, before: seq<Event>, modifiers: set<Modifier>)
    requires Run(items, cursor, before).Running?
    ensures Run(items, cursor, before + [Pressed(Char('q'), modifiers)]) == Failed(NothingSelected)
  {
    RunAppend(items, cursor, before, [Pressed(Char('q'), modifiers)]);
  }

  /** One event on a non-empty list from a safe cursor yields a safe outcome. */
  lemma StepIsSafe<T>(items: seq<T>, cursor: Option<nat>, ev: Event)
    requires |items| > 0 && InBounds(cursor, |items|)
    ensures var o := Step(items, cursor, ev);
      && (o.Running? ==> InBounds(o.cursor, |items|))
      && !o.Panicked?
      && o != Failed(InvalidSelection)
      && (o.Selected? ==> o.item in items)
  {
    MovesStayInBounds(cursor, |items|);
  }

  /**
   * On a non-empty list, starting from an absent or in-bounds cursor, no sequence
   * of events panics or hits "Invalid selection"; the cursor stays in bounds, and
   * a returned item is one of the list's items.
   */
  lemma {:induction false} RunIsSafe<T>(items: seq<T>, cursor: Option<nat>, events: seq<Event>)
    requires |items| > 0 && InBounds(cursor, |items|)
    ensures var o := Run(items, cursor, events);
      && (o.Running? ==> InBounds(o.cursor, |items|))
      && !o.Panicked?
      && o != Failed(InvalidSelection)
      && (o.Selected? ==> o.item in items)
    decreases |events|
  {
    if events != [] {
      StepIsSafe(items, cursor, events[0]);
      match Step(items, cursor, events[0])
      case Running(c) => RunIsSafe(items, c, events[1..]);
      case _ =>
    }
  }

  /** The widget as invoked (cursor at index 0) on a non-empty list is safe in the same sense. */
  lemma SelectionOnNonEmptyListIsSafe<T>(items: seq<T>, events: seq<Event>)
    requires |items| > 0
    ensures var o := Run(items, Some(0), events);
      !o.Panicked? && o != Failed(InvalidSelection) && (o.Selected? ==> o.item in items)
  {
    RunIsSafe(items, Some(0), events);
  }

  /** An empty list never returns an item. */
  lemma {:induction false} EmptyListNeverSelects<T>(cursor: Option<nat>, events: seq<Event>)
    ensures !Run<T>([], cursor, events).Selected?
    decreases |events|
  {
    if events != [] {
      match Step<T>([], cursor, events[0])
      case Running(c) => EmptyListNeverSelects<T>(c, events[1..]);
      case _ =>
    }
  }

  /**
   * From the start `run_list_selection` uses, an empty list only ever has no
   * cursor or a cursor at 0, so the step back from a larger cursor never happens.
   */
  lemma {:induction false} EmptyListCursorAtMostZero<T>(cursor: Option<nat>, events: seq<Event>)
    requires cursor.None? || cursor == Some(0)
    ensures var o := Run<T>([], cursor, events);
      o.Running? ==> o.cursor.None? || o.cursor == Some(0)
    decreases |events|
  {
    if events != [] {
      match Step<T>([], cursor, events[0])
      case Running(c) => EmptyListCursorAtMostZero<T>(c, events[1..]);
      case _ =>
    }
  }

  // ---------------------------------------------------------------------------
  // Worked scenarios
  // ---------------------------------------------------------------------------

  const Greek: seq<(string, string)> := [("a", "Alpha"), ("b", "Beta"), ("c", "Gamma")]

  /** Down three times wraps back to index 0, and Enter returns ("a", "Alpha"). */
  lemma ScenarioWrapForward()
    ensures Run(Greek, Some(0), [Pressed(Down, {}), Pressed(Down, {}), Pressed(Down, {})]) == Running(Some(0))
    ensures Run(Greek, Some(0), [Pressed(Down, {}), Pressed(Down, {}), Pressed(Down, {}), Pressed(Enter, {})])
         == Selected(("a", "Alpha"))
  {
  }

  /** Up from index 0 wraps to index 2, and Enter returns ("c", "Gamma"). */
  lemma ScenarioWrapBackward()
    ensures Run(Greek, Some(0), [Pressed(Up, {}), Pressed(Enter, {})]) == Selected(("c", "Gamma"))
  {
  }

  /**
   * On an empty list the initial cursor is index 0 anyway: Enter fails with
   * "Invalid selection", Down panics, Left then Enter fails with "Nothing selected",
   * and 'q' fails with "Nothing selected".
   */
  lemma ScenarioEmptyList()
    ensures Run<(string, string)>([], Some(0), [Pressed(Enter, {})]) == Failed(InvalidSelection)
    ensures Run<(string, string)>([], Some(0), [Pressed(Down, {})]) == Panicked(SubtractOverflow)
    ensures Run<(string, string)>([], Some(0), [Pressed(Left, {}), Pressed(Enter, {})]) == Failed(NothingSelected)
    ensures Run<(string, string)>([], Some(0), [Pressed(Char('q'), {})]) == Failed(NothingSelected)
  {
  }
}
