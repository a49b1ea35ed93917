/**
 The life cycle of the presentation (HudPresentation.cpp): its flags and the options it was
 initialized with. Every call into the window system may succeed or fail, so every outcome that a
 contract allows is possible; only hiding can be declared reliable.
 */
module HudPresentationModel {
  datatype Font = SegoeUiVariable | Unispace
  datatype BackgroundMode = FullWidth | ContentWidth
  datatype Alignment = AlignLeft | AlignCenter | AlignRight

  /** The part of the render options that a presentation is built from. */
  datatype Look = Look(font: Font, sizeOffset: int, mode: BackgroundMode, alignment: Alignment)

  datatype RenderResult = Presented | NoBuffer | Failed

  class HudPresentation {
    const hidesReliably: bool
    const works: bool
    var initialized: bool
    var visible: bool
    var displayChangePending: bool
    var look: Look
    var opacityPercent: real

    ghost predicate Valid()
      reads this
    {
      visible ==> initialized
    }

    constructor (hidesReliably: bool, works: bool)
      ensures Valid() && !initialized && this.hidesReliably == hidesReliably && this.works == works
    {
      this.hidesReliably, this.works := hidesReliably, works;
      initialized, visible, displayChangePending := false, false, false;
      look, opacityPercent := Look(SegoeUiVariable, 0, FullWidth, AlignLeft), 100.0;
    }

    /** Failures before the window is made leave the stored options, later ones shut down. */
    method Initialize(look: Look, opacityPercent: real) returns (ok: bool)
      requires Valid()
      modifies this
      ensures Valid()
      ensures old(initialized) ==> ok && unchanged(this)
      ensures !old(initialized) ==> initialized == ok && !visible
      ensures works ==> ok
      ensures !old(initialized) && ok ==>
        this.look == look && this.opacityPercent == opacityPercent && !displayChangePending
      ensures displayChangePending ==> old(displayChangePending)
    {
      if initialized { return true; }
      var accepted: bool := *;
      if !accepted && !works { return false; }
      this.look, this.opacityPercent := look, opacityPercent;
      var monitorKnown: bool := *;
      if !monitorKnown && !works { return false; }
      var created: bool := *;
      if !created && !works {
        Shutdown();
        return false;
      }
      displayChangePending := false;
      initialized := true;
      return true;
    }

    method Shutdown()
      modifies this
      ensures Valid() && !initialized && !visible && !displayChangePending
      ensures look == old(look) && opacityPercent == old(opacityPercent)
    {
      visible := false;
      initialized := false;
      displayChangePending := false;
    }

    /** WM_DISPLAYCHANGE and WM_DPICHANGED. */
    method DisplayChanged()
      requires Valid()
      modifies this`displayChangePending
      ensures Valid() && displayChangePending
    {
      displayChangePending := true;
    }

    /** After a display change: rebuild with the stored options, and show again what was shown. */
    method RefreshDisplayIfNeeded() returns (ok: bool)
      requires Valid() && initialized
      modifies this
      ensures Valid() && !displayChangePending
      ensures !old(displayChangePending) ==> ok && unchanged(this)
      ensures ok ==> initialized && visible == old(visible)
      ensures works ==> ok
      ensures visible ==> old(visible)
      ensures initialized ==> look == old(look) && opacityPercent == old(opacityPercent)
    {
      if !displayChangePending { return true; }
      var restoreVisibility := visible;
      displayChangePending := false;
      Shutdown();
      ok := Initialize(look, opacityPercent);
      if !ok || !restoreVisibility { return; }
      var committed: bool := *;
      if !committed && !works { return false; }
      visible := true;
    }

    method Show() returns (ok: bool)
      requires Valid()
      modifies this
      ensures Valid()
      ensures !old(initialized) ==> !ok && unchanged(this)
      ensures ok ==> initialized && visible
      ensures works && old(initialized) ==> ok
      ensures visible ==> ok || old(visible)
      ensures initialized ==> look == old(look) && opacityPercent == old(opacityPercent)
    {
      if !initialized { return false; }
      ok := RefreshDisplayIfNeeded();
      if !ok { return; }
      var committed: bool := *;
      if !committed && !works { return false; }
      visible := true;
    }

    method Hide() returns (ok: bool)
      requires Valid()
      modifies this`visible
      ensures Valid()
      ensures ok == !visible
      ensures visible ==> old(visible)
      ensures hidesReliably ==> ok
    {
      if !initialized || !visible { return true; }
      var committed: bool := *;
      if !committed && !hidesReliably { return false; }
      visible := false;
      return true;
    }

    method SetHudOpacity(percent: real) returns (ok: bool)
      requires Valid()
      modifies this`opacityPercent
      ensures Valid()
      ensures ok ==> initialized && opacityPercent == if percent < 0.0 then 0.0 else if percent > 100.0 then 100.0 else percent
      ensures !ok ==> opacityPercent == old(opacityPercent)
      ensures works && initialized ==> ok
    {
      if !initialized { return false; }
      var applied: bool := *;
      if !applied && !works { return false; }
      opacityPercent := if percent < 0.0 then 0.0 else if percent > 100.0 then 100.0 else percent;
      return true;
    }

    method Render() returns (result: RenderResult)
      requires Valid()
      modifies this
      ensures Valid()
      ensures !old(initialized) || !old(displayChangePending) ==> unchanged(this)
      ensures visible ==> old(visible)
      ensures initialized ==> look == old(look) && opacityPercent == old(opacityPercent)
      ensures result == Presented ==> initialized
      ensures works && old(initialized) ==> initialized && visible == old(visible) && result == Presented
    {
      if !initialized { return Failed; }
      var refreshed := RefreshDisplayIfNeeded();
      if !refreshed { return Failed; }
      result := *;
      if works { result := Presented; }
    }
  }
}
