/**
 * The mobile keyboard effect (src/hooks/use-mobile-keyboard.ts). On
 * activation it publishes the usable height to the `--app-height` layout
 * variable and, when the platform has a visual viewport, tells the store on
 * every viewport resize, viewport scroll and window resize whether the soft
 * keyboard is open. Cleanup removes the three listeners.
 *
 * The sensors are parameters: `viewport` is `window.visualViewport` (its
 * height, or None when there is none) and `innerHeight` is
 * `window.innerHeight`, both read when the callback runs. The layout variable
 * and the store are written to logs, one entry per write.
 */
module MobileKeyboard {
  import opened Wrappers

  /** A keyboard taller than this (px) counts as open. */
  const KEYBOARD_THRESHOLD: int := 100

  /** The listeners the effect registers. */
  datatype Listener = ViewportResize | ViewportScroll | WindowResize

  const ALL_LISTENERS: set<Listener> := {ViewportResize, ViewportScroll, WindowResize}

  /** The verdict `update` passes to `setMobileKeyboardOpen`. */
  predicate KeyboardOpen(innerHeight: int, viewportHeight: int) {
    innerHeight - viewportHeight > KEYBOARD_THRESHOLD
  }

  /** One threshold, strict: a gap of exactly 100px is closed, 101px is open,
      and the verdict grows with the gap. There is no band in which the
      previous verdict is kept. */
  lemma SingleStrictThreshold(innerHeight: int, h1: int, h2: int)
    ensures !KeyboardOpen(innerHeight, innerHeight - 100)
    ensures KeyboardOpen(innerHeight, innerHeight - 101)
    ensures h1 <= h2 && KeyboardOpen(innerHeight, h2) ==> KeyboardOpen(innerHeight, h1)
    ensures KeyboardOpen(innerHeight, innerHeight - 119) && !KeyboardOpen(innerHeight, innerHeight - 79)
  {
  }

  /** The effect's state: the values written to `--app-height`, the values
      passed to the store's setter, the registered listeners, and whether the
      effect returned a cleanup function. */
  class KeyboardTracker {
    var appHeightWrites: seq<int>
    var keyboardWrites: seq<bool>
    var listeners: set<Listener>
    var hasCleanup: bool

    /** A cleanup function exists exactly while the three listeners are on. */
    ghost predicate Valid()
      reads this
    {
      listeners == if hasCleanup then ALL_LISTENERS else {}
    }

    constructor ()
      ensures Valid() && !hasCleanup
      ensures appHeightWrites == [] && keyboardWrites == [] && listeners == {}
    {
      appHeightWrites := [];
      keyboardWrites := [];
      listeners := {};
      hasCleanup := false;
    }

    /** `update()`: publish the viewport height and the keyboard verdict, on
        every call, whatever was written before. */
    method Update(viewportHeight: int, innerHeight: int)
      requires Valid()
      modifies this
      ensures Valid()
      ensures appHeightWrites == old(appHeightWrites) + [viewportHeight]
      ensures keyboardWrites == old(keyboardWrites) + [KeyboardOpen(innerHeight, viewportHeight)]
      ensures listeners == old(listeners) && hasCleanup == old(hasCleanup)
    {
      var height := viewportHeight;
      appHeightWrites := appHeightWrites + [height];
      keyboardWrites := keyboardWrites + [KeyboardOpen(innerHeight, height)];
    }

    /** Running the effect. Without a visual viewport: write `innerHeight`
        once, register nothing, never call the setter, return no cleanup.
        Otherwise: update once, then register the three listeners. */
    method Activate(viewport: Option<int>, innerHeight: int)
      requires Valid() && !hasCleanup
      modifies this
      ensures Valid()
      ensures viewport.None? ==>
        appHeightWrites == old(appHeightWrites) + [innerHeight] &&
        keyboardWrites == old(keyboardWrites) && listeners == {} && !hasCleanup
      ensures viewport.Some? ==>
        appHeightWrites == old(appHeightWrites) + [viewport.value] &&
        keyboardWrites == old(keyboardWrites) + [KeyboardOpen(innerHeight, viewport.value)] &&
        listeners == ALL_LISTENERS && hasCleanup
    {
      if viewport.None? {
        appHeightWrites := appHeightWrites + [innerHeight];
        return;
      }
      Update(viewport.value, innerHeight);
      listeners := listeners + {ViewportResize};
      listeners := listeners + {ViewportScroll};
      listeners := listeners + {WindowResize};
      hasCleanup := true;
    }

    /** An event reaches `update` only through a registered listener. */
    method Dispatch(event: Listener, viewportHeight: int, innerHeight: int)
      requires Valid()
      modifies this
      ensures Valid()
      ensures listeners == old(listeners) && hasCleanup == old(hasCleanup)
      ensures event in listeners ==>
        appHeightWrites == old(appHeightWrites) + [viewportHeight] &&
        keyboardWrites == old(keyboardWrites) + [KeyboardOpen(innerHeight, viewportHeight)]
      ensures event !in listeners ==>
        appHeightWrites == old(appHeightWrites) && keyboardWrites == old(keyboardWrites)
    {
      if event in listeners {
        Update(viewportHeight, innerHeight);
      }
    }

    /** React's cleanup: the returned function removes exactly the listeners
        it added; without one nothing happens. */
    method Cleanup()
      requires Valid()
      modifies this
      ensures Valid() && !hasCleanup && listeners == {}
      ensures listeners == old(listeners) - ALL_LISTENERS
      ensures appHeightWrites == old(appHeightWrites) && keyboardWrites == old(keyboardWrites)
    {
      if hasCleanup {
        listeners := listeners - {ViewportResize};
        listeners := listeners - {ViewportScroll};
        listeners := listeners - {WindowResize};
        hasCleanup := false;
      }
    }
  }

  /** A whole lifetime with a visual viewport: activation writes once, each of
      two identical events writes again (no deduplication), and after cleanup
      an event writes nothing. */
  method Lifetime(t: KeyboardTracker, vh: int, ih: int) returns (heights: seq<int>, verdicts: seq<bool>)
    requires t.Valid() && !t.hasCleanup && t.appHeightWrites == [] && t.keyboardWrites == []
    modifies t
    ensures heights == [vh, vh, vh]
    ensures verdicts == [KeyboardOpen(ih, vh), KeyboardOpen(ih, vh), KeyboardOpen(ih, vh)]
    ensures t.listeners == {}
  {
    t.Activate(Some(vh), ih);
    t.Dispatch(ViewportResize, vh, ih);
    t.Dispatch(WindowResize, vh, ih);
    t.Cleanup();
    t.Dispatch(ViewportScroll, vh, ih);
    heights, verdicts := t.appHeightWrites, t.keyboardWrites;
  }
}
