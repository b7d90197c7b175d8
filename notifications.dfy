/**
 * The new-post notification switch that the public pages, the admin panel and
 * the full-page chatbot each keep: the browser permission, the user's choice
 * (local storage key 'notificationsEnabled'), the toggle transition, and the
 * bell button it draws.
 */
module Notifications {
  import opened Wrappers

  /** `Notification.permission` and what `Notification.requestPermission()` resolves with. */
  datatype Permission = Default | Granted | Denied

  /** The switch: browser permission and the user's choice. */
  datatype Switch = Switch(permission: Permission, enabled: bool)
  {
    /** Notifications are actually delivered. */
    predicate On() { permission == Granted && enabled }

    /** The user's choice is only set while the browser grants notifications. */
    predicate Coherent() { enabled ==> permission == Granted }
  }

  /** Which message the page shows after a toggle. */
  datatype Notice = EnabledNotice | DisabledNotice | BlockedNotice

  /** The result of one click on the bell: the new switch, what was saved, what was shown. */
  datatype Toggle = Toggle(next: Switch, saved: Option<bool>, notice: Notice)

  /** The glyph of the bell button. */
  datatype Glyph = Bell | BellSlash

  /**
   * One click on the bell. While the permission is undecided the browser is
   * asked, and `answer` is its reply: the switch follows it. A denied
   * permission leaves everything as it is. Otherwise the choice flips.
   */
  function ToggleSwitch(s: Switch, answer: Permission): (t: Toggle)
    ensures s.permission == Default ==> t.next == Switch(answer, answer == Granted)
    ensures s.permission == Denied ==> t.next == s && t.saved.None? && t.notice == BlockedNotice
    ensures s.permission == Granted ==> t.next == Switch(Granted, !s.enabled)
    ensures t.saved.Some? ==> t.saved.value == t.next.enabled
    ensures t.notice == EnabledNotice <==> t.next.enabled && s.permission != Denied
  {
    match s.permission
    case Default =>
      var on := answer == Granted;
      Toggle(Switch(answer, on), Some(on), if on then EnabledNotice else DisabledNotice)
    case Denied =>
      Toggle(s, None, BlockedNotice)
    case Granted =>
      Toggle(Switch(Granted, !s.enabled), Some(!s.enabled), if !s.enabled then EnabledNotice else DisabledNotice)
  }

  /** The glyph, and whether the button carries the `active` class, for a switch. */
  function GlyphOf(s: Switch): (g: Glyph)
    ensures g == BellSlash <==> s.permission == Denied
  {
    if s.On() then Bell else if s.permission == Denied then BellSlash else Bell
  }

  /**
   * A click never produces an incoherent switch unless the permission was
   * already denied, and a granted or denied permission is never changed by it.
   */
  lemma ToggleKeepsCoherent(s: Switch, answer: Permission)
    ensures s.permission != Denied ==> ToggleSwitch(s, answer).next.Coherent()
    ensures s.permission != Default ==> ToggleSwitch(s, answer).next.permission == s.permission
  {
  }

  /** With the permission granted, two clicks give back the switch. */
  lemma ToggleTwiceGranted(s: Switch, answer1: Permission, answer2: Permission)
    requires s.permission == Granted
    ensures ToggleSwitch(ToggleSwitch(s, answer1).next, answer2).next == s
  {
  }

  /** After a click the switch is on exactly when the browser grants and the choice was off (or it was just granted). */
  lemma ToggleTurnsOn(s: Switch, answer: Permission)
    ensures ToggleSwitch(s, answer).next.On() <==>
              (s.permission == Default && answer == Granted) || (s.permission == Granted && !s.enabled)
  {
  }

  /**
   * The switch of a page whose bell button is recreated on every redraw (the
   * public pages and the admin panel): the `active` class is set exactly when
   * notifications are on.
   */
  class Gate {
    var state: Switch
    /** The 'notificationsEnabled' entry of local storage. */
    var stored: bool
    var glyph: Glyph
    var active: bool

    ghost predicate Drawn()
      reads this
    {
      glyph == GlyphOf(state) && (active <==> state.On())
    }

    /** Start-up: read the saved choice and the browser's permission, then draw the button. */
    constructor (stored: bool, permission: Permission)
      ensures state == Switch(permission, stored) && this.stored == stored
      ensures Drawn()
    {
      state := Switch(permission, stored);
      this.stored := stored;
      glyph := GlyphOf(Switch(permission, stored));
      active := Switch(permission, stored).On();
    }

    /** A click on the bell; `answer` is the browser's reply when it is asked. */
    method Click(answer: Permission) returns (notice: Notice)
      requires Drawn()
      modifies this
      ensures state == ToggleSwitch(old(state), answer).next
      ensures notice == ToggleSwitch(old(state), answer).notice
      ensures stored == (if old(state).permission == Denied then old(stored) else state.enabled)
      ensures Drawn()
    {
      var t := ToggleSwitch(state, answer);
      if t.saved.Some? {
        stored := t.saved.value;
      }
      if state.permission != Denied {
        state := t.next;
        glyph := GlyphOf(state);
        active := state.On();
      }
      notice := t.notice;
    }
  }

  /**
   * The full-page chatbot's switch: its bell button is created once and kept,
   * the `active` class is added when notifications are on and removed only in
   * the branch for a permission that is neither granted-and-on nor denied.
   */
  class PersistentGate {
    var state: Switch
    var stored: bool
    var glyph: Glyph
    var active: bool

    /** The class reflects the switch: with a denied permission it was never set. */
    ghost predicate Drawn()
      reads this
    {
      glyph == GlyphOf(state) && (active <==> state.On())
    }

    constructor (stored: bool, permission: Permission)
      ensures state == Switch(permission, stored) && this.stored == stored
      ensures Drawn()
    {
      state := Switch(permission, stored);
      this.stored := stored;
      glyph := GlyphOf(Switch(permission, stored));
      active := false;
      new;
      Redraw();
    }

    /** The redraw: add the class when on; keep it with a denied permission; remove it otherwise. */
    method Redraw()
      modifies this
      ensures state == old(state) && stored == old(stored)
      ensures glyph == GlyphOf(state)
      ensures state.On() ==> active
      ensures state.permission == Denied ==> active == old(active)
      ensures !state.On() && state.permission != Denied ==> !active
    {
      if state.On() {
        glyph := Bell;
        active := true;
      } else if state.permission == Denied {
        glyph := BellSlash;
      } else {
        glyph := Bell;
        active := false;
      }
    }

    /**
     * A click. The denied branch does not redraw; a click that makes the
     * permission denied starts from an undecided one, whose button never had
     * the class, so a stale `active` class cannot arise.
     */
    method Click(answer: Permission) returns (notice: Notice)
      requires Drawn()
      modifies this
      ensures state == ToggleSwitch(old(state), answer).next
      ensures notice == ToggleSwitch(old(state), answer).notice
      ensures stored == (if old(state).permission == Denied then old(stored) else state.enabled)
      ensures Drawn()
    {
      var t := ToggleSwitch(state, answer);
      if t.saved.Some? {
        stored := t.saved.value;
      }
      notice := t.notice;
      if state.permission != Denied {
        state := t.next;
        Redraw();
      }
    }
  }
}
