/**
 The HUD settings and their presentation (HudController.cpp): every setting that changes the look
 recreates the presentation, and is taken back when that fails.
 */
module HudControllerModel {
  import opened Options
  import opened HudPresentationModel

  datatype VisibilityMode = Always | InGameOnly
  datatype Effects = Effects(startSampling: bool, stopSampling: bool)

  const MINIMUM_SIZE := -2
  const MAXIMUM_SIZE := 2
  const MINIMUM_OPACITY := 50
  const MAXIMUM_OPACITY := 100

  function ClampSizeOffset(offset: int): (clamped: int)
    ensures -2 <= clamped <= 2 && (-2 <= offset <= 2 ==> clamped == offset)
    ensures clamped < offset ==> clamped == 2
    ensures clamped > offset ==> clamped == -2
  {
    if offset < MINIMUM_SIZE then MINIMUM_SIZE else if offset > MAXIMUM_SIZE then MAXIMUM_SIZE else offset
  }

  function ClampOpacityPercent(percent: int): (clamped: int)
    ensures 50 <= clamped <= 100 && (50 <= percent <= 100 ==> clamped == percent)
    ensures clamped < percent ==> clamped == 100
    ensures clamped > percent ==> clamped == 50
  {
    if percent < MINIMUM_OPACITY then MINIMUM_OPACITY
    else if percent > MAXIMUM_OPACITY then MAXIMUM_OPACITY
    else percent
  }

  /** Rounds to the nearest whole number, halves away from zero. */
  function Rounded(x: real): (n: int)
    ensures -0.5 <= n as real - x <= 0.5
    ensures n as real - x == 0.5 ==> x > 0.0
    ensures n as real - x == -0.5 ==> x < 0.0
  {
    if x >= 0.0 then (x + 0.5).Floor else -(-x + 0.5).Floor
  }

  predicate ResolveVisible(enabled: bool, override: Option<bool>, mode: VisibilityMode, foregroundActive: bool) {
    enabled && (if override.Some? then override.value else mode == Always || foregroundActive)
  }

  class HudController {
    const hidesReliably: bool
    const works: bool
    var presentation: HudPresentation?
    var look: Look
    var opacity: real
    var visibilityMode: VisibilityMode
    var enabled: bool
    var manualOverride: Option<bool>

    ghost function Repr(): set<object>
      reads this
    {
      if presentation == null then {this} else {this, presentation}
    }

    /** The presentation is in order, whatever the settings are. */
    ghost predicate Sound()
      reads Repr()
    {
      presentation != null ==> presentation.Valid() && presentation.hidesReliably == hidesReliably && presentation.works == works
    }

    /** An initialized presentation was built from the current settings; alignment only matters for a content-wide bar. */
    ghost predicate Agrees()
      reads Repr()
    {
      presentation != null && presentation.initialized ==>
        && presentation.look.font == look.font
        && presentation.look.sizeOffset == look.sizeOffset
        && presentation.look.mode == look.mode
        && (look.mode == ContentWidth ==> presentation.look.alignment == look.alignment)
        && presentation.opacityPercent == opacity * 100.0
    }

    ghost predicate Valid()
      reads Repr()
    {
      Sound() && Agrees()
    }

    predicate Visible()
      reads Repr()
    {
      presentation != null && presentation.visible
    }

    predicate Initialized()
      reads Repr()
    {
      presentation != null && presentation.initialized
    }

    constructor (look: Look, opacity: real, mode: VisibilityMode, enabled: bool, hidesReliably: bool, works: bool)
      ensures Valid() && presentation == null
      ensures this.enabled == enabled && this.hidesReliably == hidesReliably && this.works == works
    {
      this.hidesReliably, this.works := hidesReliably, works;
      this.look, this.opacity, this.visibilityMode, this.enabled := look, opacity, mode, enabled;
      presentation, manualOverride := null, None;
    }

    method Ensure() returns (ok: bool)
      requires Valid()
      modifies Repr()
      ensures Valid() && presentation != null && (old(presentation) == presentation || fresh(presentation))
      ensures look == old(look) && opacity == old(opacity) && enabled == old(enabled)
      ensures visibilityMode == old(visibilityMode) && manualOverride == old(manualOverride)
      ensures ok == presentation.initialized
      ensures works ==> ok
      ensures Visible() ==> old(Visible())
    {
      if presentation == null {
        presentation := new HudPresentation(hidesReliably, works);
      }
      ok := presentation.Initialize(look, opacity * 100.0);
    }

    method ShutdownPresentation()
      requires Sound()
      modifies Repr()
      ensures Valid() && presentation == null
      ensures look == old(look) && opacity == old(opacity) && enabled == old(enabled)
      ensures visibilityMode == old(visibilityMode) && manualOverride == old(manualOverride)
    {
      if presentation != null {
        presentation.Shutdown();
        presentation := null;
      }
    }

    /**
     Rebuilds the presentation from the current settings. Whatever fails, a presentation that is
     initialized afterwards agrees with them.
     */
    method Recreate(restoreVisible: bool) returns (ok: bool)
      requires Sound()
      modifies if presentation == null then {} else {presentation}
      ensures Valid()
      ensures presentation == null || (!old(Initialized()) && !enabled) ==> ok && (presentation != null ==> unchanged(presentation))
      ensures Visible() ==> restoreVisible
      ensures ok && restoreVisible && old(Initialized()) ==> Visible()
      ensures works ==> ok && (old(Initialized()) ==> Initialized())
    {
      if presentation == null { return true; }
      if !presentation.initialized && !enabled { return true; }
      presentation.Shutdown();
      ok := presentation.Initialize(look, opacity * 100.0);
      if !ok { return; }
      if enabled { Render(true); }
      if restoreVisible {
        ok := presentation.Show();
      }
    }

    method Render(allowHidden: bool)
      requires Sound()
      modifies if presentation == null then {} else {presentation}
      ensures Sound() && (old(Agrees()) ==> Agrees())
      ensures Visible() ==> old(Visible())
      ensures works ==> Visible() == old(Visible()) && Initialized() == old(Initialized())
      ensures presentation != null && !old(presentation.displayChangePending) ==> unchanged(presentation)
    {
      if !enabled || presentation == null || (!allowHidden && !presentation.visible) { return; }
      var result := presentation.Render();
    }

    method Refresh()
      requires Sound()
      modifies if presentation == null then {} else {presentation}
      ensures Sound() && (old(Agrees()) ==> Agrees())
      ensures Visible() ==> old(Visible())
      ensures works ==> Visible() == old(Visible())
    {
      if enabled && presentation != null && presentation.visible { Render(false); }
    }

    // ------------------------------------------------------------------ settings

    /** A setting that was changed to `requested` is what was asked for, or what it was before. */
    method SetFont(font: Font) returns (saved: bool)
      requires Valid()
      modifies this`look, if presentation == null then {} else {presentation}
      ensures Valid()
      ensures look == old(look) || look == old(look).(font := font)
      ensures saved && old(Visible()) ==> Visible()
      ensures saved ==> look.font == font
      ensures works ==> look.font == font && Visible() == old(Visible())
      ensures !saved ==> look == old(look)
      ensures Visible() ==> old(Visible())
    {
      if look.font == font { return false; }
      var previous := look.font;
      var restoreVisible := presentation != null && presentation.initialized && presentation.visible;
      look := look.(font := font);
      var recreated := Recreate(restoreVisible);
      if !recreated {
        look := look.(font := previous);
        recreated := Recreate(restoreVisible);
        return false;
      }
      return true;
    }

    method SetSizeOffset(requested: int) returns (saved: bool)
      requires Valid()
      modifies this`look, if presentation == null then {} else {presentation}
      ensures Valid()
      ensures look == old(look) || look == old(look).(sizeOffset := ClampSizeOffset(requested))
      ensures saved && old(Visible()) ==> Visible()
      ensures saved ==> look.sizeOffset == ClampSizeOffset(requested)
      ensures works ==> look.sizeOffset == ClampSizeOffset(requested) && Visible() == old(Visible())
      ensures !saved ==> look == old(look)
      ensures Visible() ==> old(Visible())
    {
      var offset := ClampSizeOffset(requested);
      if look.sizeOffset == offset { return false; }
      var previous := look.sizeOffset;
      var restoreVisible := presentation != null && presentation.initialized && presentation.visible;
      look := look.(sizeOffset := offset);
      var recreated := Recreate(restoreVisible);
      look := look.(sizeOffset := if recreated then ClampSizeOffset(offset) else previous);
      if !recreated {
        recreated := Recreate(restoreVisible);
        return false;
      }
      return true;
    }

    method SetBackgroundMode(mode: BackgroundMode) returns (saved: bool)
      requires Valid()
      modifies this`look, if presentation == null then {} else {presentation}
      ensures Valid()
      ensures look == old(look) || look == old(look).(mode := mode)
      ensures look.mode != old(look.mode) && old(Visible()) ==> Visible()
      ensures saved == (old(look.mode) != mode)
      ensures works ==> look.mode == mode && Visible() == old(Visible())
      ensures Visible() ==> old(Visible())
    {
      if look.mode == mode { return false; }
      var previous := look.mode;
      look := look.(mode := mode);
      var restoreVisible := presentation != null && presentation.initialized && presentation.visible;
      var recreated := Recreate(restoreVisible);
      look := look.(mode := if recreated then mode else previous);
      if !recreated {
        recreated := Recreate(restoreVisible);
        return true;
      }
      return true;
    }

    /** A full-width bar keeps its presentation: the alignment it was built with is not used. */
    method SetAlignment(alignment: Alignment) returns (saved: bool)
      requires Valid()
      modifies this`look, if presentation == null then {} else {presentation}
      ensures Valid()
      ensures look == old(look) || look == old(look).(alignment := alignment)
      ensures old(look.mode) == ContentWidth && look.alignment != old(look.alignment) && old(Visible()) ==> Visible()
      ensures old(look.mode) == FullWidth ==> look.alignment == alignment
      ensures saved == (old(look.alignment) != alignment)
      ensures works ==> look.alignment == alignment && Visible() == old(Visible())
      ensures Visible() ==> old(Visible())
    {
      if look.alignment == alignment { return false; }
      var previous := look.alignment;
      look := look.(alignment := alignment);
      if look.mode == ContentWidth {
        var restoreVisible := presentation != null && presentation.initialized && presentation.visible;
        var recreated := Recreate(restoreVisible);
        look := look.(alignment := if recreated then alignment else previous);
        if !recreated {
          recreated := Recreate(restoreVisible);
          return true;
        }
      } else {
        Refresh();
      }
      return true;
    }

    /** Opacity is applied to the live window; only a failure there leaves it unchanged. */
    method SetOpacity(requested: real) returns (ok: bool)
      requires Valid()
      modifies this`opacity, if presentation == null then {} else {presentation}
      ensures Valid()
      ensures ok ==> opacity == ClampOpacityPercent(Rounded(requested * 100.0)) as real / 100.0
      ensures !ok ==> opacity == old(opacity) && Initialized()
      ensures works ==> ok
      ensures presentation != null ==> presentation.look == old(presentation.look) && presentation.initialized == old(presentation.initialized)
      ensures Visible() == old(Visible())
    {
      var percent := ClampOpacityPercent(Rounded(requested * 100.0));
      var newOpacity := percent as real / 100.0;
      if opacity == newOpacity { return true; }
      if presentation != null && presentation.initialized {
        ok := presentation.SetHudOpacity(percent as real);
        if !ok { return; }
      }
      opacity := newOpacity;
      return true;
    }

    method SetVisibilityMode(mode: VisibilityMode) returns (previous: VisibilityMode)
      requires Valid()
      modifies this`visibilityMode, this`manualOverride
      ensures Valid() && visibilityMode == mode && manualOverride == None && previous == old(visibilityMode)
    {
      previous := visibilityMode;
      visibilityMode := mode;
      manualOverride := None;
    }

    // ------------------------------------------------------------------ visibility

    method HideForSuspend()
      requires Valid()
      modifies if presentation == null then {} else {presentation}
      ensures Valid() && Initialized() == old(Initialized())
      ensures Visible() ==> old(Visible()) && !hidesReliably
    {
      if presentation != null && presentation.visible {
        var hidden := presentation.Hide();
      }
    }

    /** The same for a resume whose suspend notification was missed. */
    method HideForResumeFallback()
      requires Valid()
      modifies if presentation == null then {} else {presentation}
      ensures Valid() && Initialized() == old(Initialized())
      ensures Visible() ==> old(Visible()) && !hidesReliably
    {
      if presentation != null && presentation.visible {
        var hidden := presentation.Hide();
      }
    }

    method HideForLifecycleGate()
      requires Valid() && presentation != null
      modifies presentation
      ensures Valid() && Initialized() == old(Initialized())
      ensures Visible() ==> old(Visible()) && !hidesReliably
    {
      var hidden := presentation.Hide();
    }

    /**
     The HUD is wanted when enabled and either overridden to be shown or, without an override, in the
     Always mode or with a game in the foreground. When everything works it is visible afterwards, and
     sampling starts, exactly then; sampling stops exactly otherwise.
     */
    method ReconcileVisibility(foregroundActive: bool) returns (effects: Effects)
      requires Valid() && presentation != null
      modifies presentation
      ensures Valid()
      ensures effects.startSampling ==> Visible()
      ensures works && old(Initialized()) ==> Initialized()
      ensures !old(Initialized()) ==> !Initialized()
      ensures var wanted := enabled
                && (manualOverride == Some(true) || (manualOverride == None && (visibilityMode == Always || foregroundActive)));
        && (effects.stopSampling <==> !wanted)
        && (effects.startSampling ==> wanted)
        && (Visible() ==> old(Visible()) || wanted)
        && (hidesReliably && Visible() ==> wanted)
        && (works && old(Initialized()) && wanted ==> Visible() && effects.startSampling)
    {
      effects := Effects(false, false);
      if ResolveVisible(enabled, manualOverride, visibilityMode, foregroundActive) {
        var shown := presentation.Show();
        if shown { effects := effects.(startSampling := true); }
      } else {
        var hidden := presentation.Hide();
        effects := effects.(stopSampling := true);
      }
    }
  }
}
