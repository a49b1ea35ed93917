/**
 Suspend and resume (App.cpp, SuspendResumePolicy.h): while the system is suspended, and until a
 bounded recovery after resume has shown a fresh frame, the HUD stays hidden, whatever settings,
 hotkey, foreground, display and power events arrive and whichever window-system calls fail.
 */
module ResumeRecovery {
  import opened Options
  import opened HudPresentationModel
  import opened HudControllerModel

  const MAXIMUM_ATTEMPTS := 6

  predicate HasAttemptsRemaining(attempts: nat) {
    attempts < MAXIMUM_ATTEMPTS
  }

  predicate ShouldWaitForForeground(hudEnabled: bool, usesForeground: bool, processAlive: bool,
      foregroundMatches: bool, attempts: nat)
  {
    hudEnabled && usesForeground && processAlive && !foregroundMatches && HasAttemptsRemaining(attempts)
  }

  predicate MayShowHud(expectedVisible: bool, freshFrameReady: bool) {
    !expectedVisible || freshFrameReady
  }

  /** What the user or the system does. */
  datatype Event =
    | Suspend | Resume | Tick | Foreground | HotkeyToggle | Sample | DisplayChange
    | Enable(on: bool) | ChooseFont(font: Font) | ChooseSize(offset: int) | ChooseMode(mode: BackgroundMode)
    | ChooseAlignment(alignment: Alignment) | ChooseOpacity(opacity: real) | ChooseVisibility(visibility: VisibilityMode)

  class App {
    const hud: HudController
    var suspended: bool
    var resumeRecoveryActive: bool
    var resumeRecoveryAttempts: nat
    var timerArmed: bool
    /** Production sampling runs: its timers are set. */
    var sampling: bool

    ghost function Repr(): set<object>
      reads this, hud
    {
      {this} + hud.Repr()
    }

    ghost predicate Gated()
      reads this
    {
      suspended || resumeRecoveryActive
    }

    /**
     At rest: the two flags are never both set; the timer runs exactly while recovery is active,
     with attempts left; the HUD is visible only when enabled and not gated, and sampling does not run
     while gated.
     */
    ghost predicate Valid()
      reads Repr()
    {
      && hud.Valid()
      && !(suspended && resumeRecoveryActive)
      && timerArmed == resumeRecoveryActive
      && (resumeRecoveryActive ==> resumeRecoveryAttempts < 6)
      && (!resumeRecoveryActive ==> resumeRecoveryAttempts == 0)
      && (hud.Visible() ==> hud.enabled)
      && (hud.Visible() && hud.hidesReliably ==> !Gated())
      && (suspended ==> !sampling)
      && (sampling && Dependable() ==> !Gated())
    }

    constructor (look: Look, opacity: real, mode: VisibilityMode, enabled: bool, hidesReliably: bool, works: bool)
      ensures Valid() && fresh(Repr()) && hud.hidesReliably == hidesReliably && hud.works == works
    {
      var controller := new HudController(look, opacity, mode, enabled, hidesReliably, works);
      hud := controller;
      suspended, resumeRecoveryActive, resumeRecoveryAttempts, timerArmed, sampling := false, false, 0, false, false;
    }

    /** The HUD is to be shown whichever process has the foreground. */
    ghost predicate AlwaysShown()
      reads hud
    {
      hud.enabled && (hud.manualOverride == Some(true) || (hud.manualOverride == None && hud.visibilityMode == Always))
    }

    /** Whether the HUD is to be shown depends on the foreground. */
    predicate UsesForeground()
      reads hud
    {
      hud.manualOverride == None && hud.visibilityMode == InGameOnly
    }

    /** A living game that is not in the foreground, though it decides, is waited for while attempts remain. */
    ghost predicate Waits(processAlive: bool, foregroundActive: bool, attempts: nat)
      reads hud
    {
      && hud.enabled && hud.manualOverride == None && hud.visibilityMode == InGameOnly
      && processAlive && !foregroundActive && attempts < 6
    }

    /** The HUD is to be shown, given whether a game is in the foreground. */
    ghost predicate Wanted(foreground: bool)
      reads hud
    {
      && hud.enabled
      && (hud.manualOverride == Some(true) || (hud.manualOverride == None && (hud.visibilityMode == Always || foreground)))
    }

    /** The HUD is visible, and sampling runs, exactly as wanted. */
    ghost predicate Settled(foreground: bool)
      reads this, hud.Repr()
    {
      (hud.Visible() <==> Wanted(foreground)) && (sampling <==> Wanted(foreground))
    }

    /** The window system does what it is asked. */
    ghost predicate Dependable()
      reads hud
    {
      hud.works && hud.hidesReliably
    }

    /** The HUD is to be hidden whichever process has the foreground. */
    ghost predicate NeverShown()
      reads hud
    {
      !hud.enabled || hud.manualOverride == Some(false)
    }

    method StartProductionSampling()
      requires hud.Sound()
      modifies this`sampling
      ensures sampling == (old(sampling) || (!suspended && hud.Visible()))
    {
      if suspended || !hud.Visible() { return; }
      sampling := true;
    }

    /**
     A nested event of the game session reconciles too, to any depth, and may start sampling. `last` is
     what it answered last, `latest` what it has answered last afterwards.
     */
    method GameSession(depth: nat, ghost last: bool) returns (ghost latest: bool)
      requires hud.Valid()
      modifies this`sampling, if hud.presentation == null then {} else {hud.presentation}
      ensures hud.Valid()
      ensures hud.Visible() && (Gated() || !hud.enabled) ==> old(hud.Visible())
      ensures hud.works && old(hud.Initialized()) ==> hud.Initialized()
      ensures hud.works && old(hud.Visible()) && !Gated() && AlwaysShown() ==> hud.Visible()
      ensures Dependable() && old(hud.Initialized()) && !Gated() && old(Settled(last)) ==> Settled(latest)
      ensures suspended ==> sampling == old(sampling)
      ensures hud.hidesReliably && Gated() && !old(hud.Visible()) ==> sampling == old(sampling)
      ensures !old(hud.Initialized()) ==> !hud.Initialized() && (sampling ==> old(sampling))
      decreases depth, 0
    {
      var callbacks: nat :| true;
      latest := last;
      for i := 0 to callbacks
        invariant hud.Valid()
        invariant hud.Visible() && (Gated() || !hud.enabled) ==> old(hud.Visible())
        invariant hud.works && old(hud.Initialized()) ==> hud.Initialized()
        invariant hud.works && old(hud.Visible()) && !Gated() && AlwaysShown() ==> hud.Visible()
        invariant Dependable() && old(hud.Initialized()) && !Gated() && old(Settled(last)) ==> Settled(latest)
        invariant suspended ==> sampling == old(sampling)
        invariant hud.hidesReliably && Gated() && !old(hud.Visible()) ==> sampling == old(sampling)
        invariant !old(hud.Initialized()) ==> !hud.Initialized() && (sampling ==> old(sampling))
      {
        var starts: bool := *;
        if starts { StartProductionSampling(); }
        else if depth > 0 { latest := ReconcileHudVisibility(depth - 1, latest); }
      }
    }

    /** `foreground` is what the game session has answered last. */
    method ReconcileHudVisibility(depth: nat, ghost last: bool) returns (ghost foreground: bool)
      requires hud.Valid()
      modifies this`sampling, if hud.presentation == null then {} else {hud.presentation}
      ensures hud.Valid()
      ensures hud.Visible() && (Gated() || !hud.enabled) ==> old(hud.Visible()) && !hud.hidesReliably
      ensures hud.works && old(hud.Initialized()) ==> hud.Initialized() && (!Gated() && AlwaysShown() ==> hud.Visible())
      ensures hud.hidesReliably && (Gated() || NeverShown()) ==> !hud.Visible()
      ensures Dependable() && old(hud.Initialized()) && !Gated() ==> Settled(foreground)
      ensures Gated() ==> sampling == old(sampling)
      ensures !old(hud.Initialized()) ==> !hud.Initialized() && (sampling ==> old(sampling))
      decreases depth, 1
    {
      foreground := last;
      if hud.presentation == null { return; }
      if suspended || resumeRecoveryActive {
        hud.HideForLifecycleGate();
        return;
      }
      foreground := GameSession(depth, last);
      var foregroundGameActive: bool := *;
      foreground := foregroundGameActive;
      var effects := hud.ReconcileVisibility(foregroundGameActive);
      if effects.startSampling { StartProductionSampling(); }
      if effects.stopSampling { sampling := false; }
    }

    method CancelResumeRecovery()
      modifies this`resumeRecoveryActive, this`resumeRecoveryAttempts, this`timerArmed
      ensures !resumeRecoveryActive && resumeRecoveryAttempts == 0 && !timerArmed
    {
      timerArmed := false;
      resumeRecoveryActive := false;
      resumeRecoveryAttempts := 0;
    }

    method HandleSystemSuspend()
      requires Valid()
      modifies this, if hud.presentation == null then {} else {hud.presentation}
      ensures Valid()
      ensures suspended && !resumeRecoveryActive && !sampling
    {
      if suspended { return; }
      suspended := true;
      CancelResumeRecovery();
      hud.HideForSuspend();
      sampling := false;
    }

    method HandleSystemResume()
      requires Valid()
      modifies this, if hud.presentation == null then {} else {hud.presentation}
      ensures Valid()
      ensures !suspended && resumeRecoveryActive
      ensures resumeRecoveryAttempts == if old(resumeRecoveryActive) then old(resumeRecoveryAttempts) else 0
    {
      if resumeRecoveryActive { return; }
      if !suspended {
        hud.HideForResumeFallback();
        sampling := false;
      }
      suspended := false;
      resumeRecoveryActive := true;
      resumeRecoveryAttempts := 0;
      timerArmed := true;
    }

    /**
     Each tick ends the recovery or uses up one of its attempts. What the game session reports at
     the tick is given; a game that is alive but not yet in the foreground is waited for. A HUD that is
     expected appears only after a fresh frame (`presented`). When everything works, a tick that does not
     wait leaves the HUD as the last answer of the game session wants it (`foreground`); it keeps the
     recovery going only when the HUD was expected at the tick and is not wanted any more.
     */
    method TryResumeRecovery(processAlive: bool, foregroundActive: bool, depth: nat)
      returns (ghost foreground: bool, ghost presented: bool)
      requires Valid()
      modifies this, if hud.presentation == null then {} else {hud.presentation}
      ensures Valid()
      ensures suspended == old(suspended)
      ensures !old(resumeRecoveryActive) ==> !resumeRecoveryActive
      ensures resumeRecoveryActive ==> resumeRecoveryAttempts == old(resumeRecoveryAttempts) + 1
      ensures NeverShown() ==> !resumeRecoveryActive
      ensures old(resumeRecoveryActive) && Waits(processAlive, foregroundActive, old(resumeRecoveryAttempts) + 1)
        ==> resumeRecoveryActive
      ensures old(resumeRecoveryActive) && AlwaysShown() && hud.works && old(hud.Initialized()) ==>
        !resumeRecoveryActive && hud.Visible()
      ensures old(resumeRecoveryActive) && Wanted(foregroundActive) && !presented && hud.Visible() ==> old(hud.Visible())
      ensures var waited := Waits(processAlive, foregroundActive, old(resumeRecoveryAttempts) + 1);
        old(resumeRecoveryActive) && Dependable() && old(hud.Initialized()) && !waited ==>
          && (!resumeRecoveryActive ==> Settled(foreground))
          && (resumeRecoveryActive ==> Wanted(foregroundActive) && !Wanted(foreground) && !hud.Visible())
    {
      foreground, presented := foregroundActive, false;
      if !resumeRecoveryActive { return; }
      resumeRecoveryAttempts := resumeRecoveryAttempts + 1;
      ghost var ignored := GameSession(depth, foregroundActive);
      var expectedVisible := ResolveVisible(hud.enabled, hud.manualOverride, hud.visibilityMode, foregroundActive);
      if ShouldWaitForForeground(hud.enabled, UsesForeground(), processAlive, foregroundActive, resumeRecoveryAttempts) {
        timerArmed := true;
        return;
      }
      var freshFrameReady;
      freshFrameReady, presented := FreshFrame(expectedVisible);
      if !MayShowHud(expectedVisible, freshFrameReady) {
        resumeRecoveryActive := true;
        RetryOrGiveUp();
        return;
      }
      foreground := ShowAgain(expectedVisible, depth, foregroundActive);
    }

    /** Opens the gate; unless the HUD is then as expected, closes it for another attempt. */
    method ShowAgain(expectedVisible: bool, depth: nat, ghost last: bool) returns (ghost foreground: bool)
      requires hud.Valid() && (hud.Visible() || expectedVisible ==> hud.enabled) && !suspended
      requires resumeRecoveryActive && timerArmed && resumeRecoveryAttempts <= MAXIMUM_ATTEMPTS
      requires Dependable() ==> !sampling
      modifies this`resumeRecoveryActive, this`resumeRecoveryAttempts, this`timerArmed, this`sampling
      modifies if hud.presentation == null then {} else {hud.presentation}
      ensures Valid()
      ensures resumeRecoveryActive ==> resumeRecoveryAttempts == old(resumeRecoveryAttempts)
      ensures !expectedVisible ==> !resumeRecoveryActive
      ensures AlwaysShown() && hud.works && old(hud.Initialized()) ==> !resumeRecoveryActive && hud.Visible()
      ensures Dependable() && old(hud.Initialized()) ==> Settled(foreground) && (resumeRecoveryActive ==> !hud.Visible())
    {
      resumeRecoveryActive := false;
      foreground := ReconcileAfterRecovery(expectedVisible, depth, last);
      if !expectedVisible || hud.Visible() {
        CancelResumeRecovery();
        if hud.enabled { foreground := GameSession(depth, foreground); }
        return;
      }
      resumeRecoveryActive := true;
      RetryOrGiveUp();
    }

    /** The first attempt rebuilds the presentation when the HUD does not appear. */
    method ReconcileAfterRecovery(expectedVisible: bool, depth: nat, ghost last: bool) returns (ghost foreground: bool)
      requires hud.Valid() && (hud.Visible() || expectedVisible ==> hud.enabled) && !suspended && !resumeRecoveryActive
      requires Dependable() ==> !sampling
      modifies this`sampling, if hud.presentation == null then {} else {hud.presentation}
      ensures hud.Valid() && (hud.Visible() ==> hud.enabled)
      ensures AlwaysShown() && hud.works && old(hud.Initialized()) ==> hud.Visible()
      ensures hud.works && old(hud.Initialized()) ==> hud.Initialized()
      ensures Dependable() && old(hud.Initialized()) ==> Settled(foreground)
      ensures Dependable() ==> Settled(foreground) || !sampling
    {
      foreground := ReconcileHudVisibility(depth, last);
      if expectedVisible && !hud.Visible() && resumeRecoveryAttempts == 1 {
        var recreated := hud.Recreate(true);
        foreground := ReconcileHudVisibility(depth, foreground);
      }
    }

    /** The first attempt may rebuild the presentation to get a frame out; `presented` says whether one got out. */
    method FreshFrame(expectedVisible: bool) returns (ready: bool, ghost presented: bool)
      requires hud.Valid()
      modifies if hud.presentation == null then {} else {hud.presentation}
      ensures hud.Valid()
      ensures hud.Visible() ==> old(hud.Visible())
      ensures !expectedVisible ==> ready
      ensures expectedVisible ==> ready == presented
      ensures hud.works && old(hud.Initialized()) ==> ready && hud.Initialized()
    {
      ready, presented := !expectedVisible || hud.presentation != null, false;
      if expectedVisible && hud.presentation != null {
        var result := hud.presentation.Render();
        ready := result == Presented;
        if !ready && result != NoBuffer && resumeRecoveryAttempts == 1 {
          ready := hud.Recreate(false);
        }
        presented := ready;
      }
    }

    method RetryOrGiveUp()
      requires resumeRecoveryActive && resumeRecoveryAttempts <= MAXIMUM_ATTEMPTS
      modifies this`resumeRecoveryActive, this`resumeRecoveryAttempts, this`timerArmed
      ensures resumeRecoveryActive == HasAttemptsRemaining(old(resumeRecoveryAttempts))
      ensures resumeRecoveryAttempts == if resumeRecoveryActive then old(resumeRecoveryAttempts) else 0
      ensures timerArmed == resumeRecoveryActive
    {
      if !HasAttemptsRemaining(resumeRecoveryAttempts) {
        CancelResumeRecovery();
        return;
      }
      timerArmed := true;
    }

    method SetHudEnabled(on: bool, depth: nat) returns (ghost foreground: bool)
      requires Valid()
      modifies this`sampling, hud.Repr()
      ensures Valid() && fresh(Repr() - old(Repr()))
      ensures !on ==> !hud.enabled && !hud.Visible() && hud.presentation == null
      ensures !on && Dependable() ==> !sampling
      ensures on && hud.works ==> hud.enabled && (hud.visibilityMode == Always && !Gated() ==> hud.Visible())
      ensures on && Dependable() && !Gated() ==> Settled(foreground)
    {
      foreground := false;
      if !on {
        hud.enabled, hud.manualOverride := false, None;
        sampling := false;
        foreground := GameSession(depth, foreground);
        foreground := ReconcileHudVisibility(depth, foreground);
        hud.ShutdownPresentation();
        return;
      }
      var ready := hud.Ensure();
      if !ready { return; }
      hud.enabled := true;
      foreground := GameSession(depth, foreground);
      hud.manualOverride := None;
      foreground := ReconcileHudVisibility(depth, foreground);
    }

    /** Restores a persisted enable at startup, or gives it up when the presentation cannot be made. */
    method Start(depth: nat) returns (ghost foreground: bool)
      requires Valid()
      modifies this`sampling, hud.Repr()
      ensures Valid() && fresh(Repr() - old(Repr()))
      ensures hud.enabled && hud.works ==> hud.Initialized()
      ensures hud.works ==> hud.enabled == old(hud.enabled)
      ensures hud.enabled && Dependable() && !Gated() ==> Settled(foreground)
    {
      foreground := false;
      if !hud.enabled { return; }
      var ready := hud.Ensure();
      if !ready {
        hud.enabled := false;
        return;
      }
      foreground := GameSession(depth, foreground);
      foreground := ReconcileHudVisibility(depth, foreground);
    }

    method SetHudVisibilityMode(mode: VisibilityMode, depth: nat) returns (ghost foreground: bool)
      requires Valid()
      modifies this`sampling, hud`visibilityMode, hud`manualOverride
      modifies if hud.presentation == null then {} else {hud.presentation}
      ensures Valid() && hud.visibilityMode == mode && hud.manualOverride == None
      ensures Dependable() && old(hud.Initialized()) && !Gated() ==> Settled(foreground)
    {
      foreground := false;
      var previous := hud.SetVisibilityMode(mode);
      if mode != previous {
        if mode == InGameOnly { foreground := GameSession(depth, foreground); }
        var hasTarget: bool := *;
        if !suspended && hud.enabled && hud.Visible() && hasTarget { hud.Render(false); }
      }
      foreground := ReconcileHudVisibility(depth, foreground);
    }

    /** The hotkey overrides the visibility towards its opposite; a disabled HUD ignores it. */
    method HandleHudToggleHotkey(depth: nat)
      requires Valid()
      modifies this`sampling, hud`manualOverride, if hud.presentation == null then {} else {hud.presentation}
      ensures Valid()
      ensures !hud.enabled ==> hud.manualOverride == old(hud.manualOverride)
      ensures hud.enabled ==> hud.manualOverride == Some(!old(hud.Visible()))
      ensures hud.enabled && old(hud.Visible()) && hud.hidesReliably ==> !hud.Visible()
      ensures hud.enabled && !old(hud.Visible()) && hud.works && old(hud.Initialized()) && !Gated() ==> hud.Visible()
      ensures hud.enabled && Dependable() && old(hud.Initialized()) && !Gated() ==> sampling == hud.Visible()
    {
      if !hud.enabled { return; }
      hud.manualOverride := Some(!hud.Visible());
      ghost var foreground := ReconcileHudVisibility(depth, false);
    }

    // ------------------------------------------------------------------ whole runs

    /** A settings, display or telemetry event. */
    method HandleOther(e: Event, depth: nat)
      requires Valid() && !e.Suspend? && !e.Resume? && !e.Tick?
      modifies this`sampling, hud.Repr()
      ensures Valid() && fresh(Repr() - old(Repr()))
    {
      match e {
        case Foreground => ghost var foreground := ReconcileHudVisibility(depth, false);
        case HotkeyToggle => HandleHudToggleHotkey(depth);
        case Sample => hud.Render(false);
        case DisplayChange => if hud.presentation != null { hud.presentation.DisplayChanged(); }
        case Enable(on) => ghost var foreground := SetHudEnabled(on, depth);
        case ChooseFont(font) => var saved := hud.SetFont(font);
        case ChooseSize(offset) => var saved := hud.SetSizeOffset(offset);
        case ChooseMode(mode) => var saved := hud.SetBackgroundMode(mode);
        case ChooseAlignment(alignment) => var saved := hud.SetAlignment(alignment);
        case ChooseOpacity(opacity) => var applied := hud.SetOpacity(opacity);
        case ChooseVisibility(mode) => ghost var foreground := SetHudVisibilityMode(mode, depth);
      }
    }

    method Handle(e: Event, depth: nat)
      requires Valid()
      modifies Repr()
      ensures Valid() && fresh(Repr() - old(Repr()))
      ensures suspended == if e.Suspend? then true else if e.Resume? then false else old(suspended)
      ensures e.Suspend? && !old(suspended) ==> !resumeRecoveryActive
      ensures e.Resume? ==> resumeRecoveryActive
      ensures resumeRecoveryActive && !e.Resume? ==>
        old(resumeRecoveryActive) && resumeRecoveryAttempts == old(resumeRecoveryAttempts) + if e.Tick? then 1 else 0
    {
      if e.Suspend? { HandleSystemSuspend(); }
      else if e.Resume? { HandleSystemResume(); }
      else if e.Tick? {
        var processAlive: bool := *;
        var foregroundActive: bool := *;
        ghost var foreground, presented := TryResumeRecovery(processAlive, foregroundActive, depth);
      }
      else { HandleOther(e, depth); }
    }

    /**
     From the start on, any run of events keeps the HUD hidden while suspended or recovering, and a
     recovery is over after six of its ticks, whatever comes between them, unless a new resume starts
     another.
     */
    method Run(events: seq<Event>, depth: nat)
      requires Valid()
      modifies Repr()
      ensures Valid() && fresh(Repr() - old(Repr()))
      ensures hud.hidesReliably && (suspended || resumeRecoveryActive) ==> !hud.Visible()
      ensures Dependable() && (suspended || resumeRecoveryActive) ==> !sampling
      ensures (forall e :: e in events ==> !e.Resume?) && Ticks(events) >= 6 ==> !resumeRecoveryActive
    {
      ghost var foreground := Start(depth);
      for i := 0 to |events|
        invariant Valid() && fresh(Repr() - old(Repr()))
        invariant (forall e :: e in events[..i] ==> !e.Resume?) && resumeRecoveryActive
          ==> resumeRecoveryAttempts >= Ticks(events[..i])
      {
        Handle(events[i], depth);
        assert events[..i + 1] == events[..i] + [events[i]];
      }
      assert events[..|events|] == events;
    }
  }

  function Ticks(events: seq<Event>): nat {
    if events == [] then 0 else Ticks(events[..|events| - 1]) + if events[|events| - 1].Tick? then 1 else 0
  }
}
