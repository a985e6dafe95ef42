// The navigation bar's show/hide logic (ui/NavigationBarController.java).
// The three flags of the controller are fields; so are the parts of JavaFX
// it drives: whether the auto-hide timer and the two fade animations are
// running, and whether the controls container is visible (and managed,
// which is always set together with it). The timer firing and an animation
// finishing are events, modelled as methods the toolkit calls.

module NavigationBarController {

  /** The height of the area at the top of the window that brings the bar back, in pixels. */
  const TopTriggerHeight: real := 50.0

  class NavigationBarController {
    var isNavigationBarVisible: bool
    var isNavigationBarPinned: bool
    var isMouseInTopArea: bool

    var autoHideTimerRunning: bool
    var showAnimationRunning: bool
    var hideAnimationRunning: bool
    /** `controlsContainer.isVisible()` (and `isManaged()`). */
    var containerShown: bool

    /**
     * What every handler keeps: the auto-hide timer only runs for an
     * unpinned bar, the two fades never run together, a fade-in runs only
     * for a bar meant visible, and a pinned bar's container is shown.
     */
    predicate Inv()
      reads this
    {
      (autoHideTimerRunning ==> !isNavigationBarPinned) &&
      !(showAnimationRunning && hideAnimationRunning) &&
      (showAnimationRunning ==> isNavigationBarVisible) &&
      (isNavigationBarPinned ==> containerShown)
    }

    /** The state a new controller starts in, and `reset` restores. */
    predicate IsInitial()
      reads this
      ensures IsInitial() ==> isNavigationBarPinned && isNavigationBarVisible && containerShown
    {
      isNavigationBarVisible && isNavigationBarPinned && !isMouseInTopArea && !autoHideTimerRunning && containerShown
    }

    constructor ()
      ensures Inv() && IsInitial()
      ensures !showAnimationRunning && !hideAnimationRunning
    {
      isNavigationBarVisible := true;
      isNavigationBarPinned := true;
      isMouseInTopArea := false;
      autoHideTimerRunning := false;
      showAnimationRunning := false;
      hideAnimationRunning := false;
      containerShown := true;
    }

    /** `startAutoHideTimer`: the timer restarts from zero. */
    method StartAutoHideTimer()
      modifies this
      ensures autoHideTimerRunning
      ensures isNavigationBarVisible == old(isNavigationBarVisible) && isNavigationBarPinned == old(isNavigationBarPinned)
      ensures isMouseInTopArea == old(isMouseInTopArea) && containerShown == old(containerShown)
      ensures showAnimationRunning == old(showAnimationRunning) && hideAnimationRunning == old(hideAnimationRunning)
    {
      autoHideTimerRunning := false;
      autoHideTimerRunning := true;
    }

    /** `showNavigationBarPermanently`: pinned and visible, the timer stopped, fading in. */
    method ShowNavigationBarPermanently()
      requires Inv()
      modifies this
      ensures Inv()
      ensures isNavigationBarPinned && isNavigationBarVisible && containerShown
      ensures !autoHideTimerRunning && showAnimationRunning && !hideAnimationRunning
      ensures isMouseInTopArea == old(isMouseInTopArea)
    {
      isNavigationBarPinned := true;
      isNavigationBarVisible := true;
      autoHideTimerRunning := false;
      containerShown := true;
      if hideAnimationRunning {
        hideAnimationRunning := false;
      }
      showAnimationRunning := true;
    }

    /** `hideNavigationBar`: not visible, the timer stopped, fading out; the pin stays. */
    method HideNavigationBar()
      requires Inv()
      modifies this
      ensures Inv()
      ensures !isNavigationBarVisible && isNavigationBarPinned == old(isNavigationBarPinned)
      ensures !autoHideTimerRunning && !showAnimationRunning && hideAnimationRunning
      ensures isMouseInTopArea == old(isMouseInTopArea) && containerShown == old(containerShown)
    {
      isNavigationBarVisible := false;
      autoHideTimerRunning := false;
      if showAnimationRunning {
        showAnimationRunning := false;
      }
      hideAnimationRunning := true;
    }

    /**
     * `showNavigationBarTemporarily`: nothing for a pinned bar; otherwise
     * visible and fading in, with the auto-hide timer restarted unless the
     * mouse is over the top area.
     */
    method ShowNavigationBarTemporarily()
      requires Inv()
      modifies this
      ensures Inv()
      ensures old(isNavigationBarPinned) ==>
                isNavigationBarVisible == old(isNavigationBarVisible) && containerShown == old(containerShown) &&
                autoHideTimerRunning == old(autoHideTimerRunning) &&
                showAnimationRunning == old(showAnimationRunning) && hideAnimationRunning == old(hideAnimationRunning)
      ensures !old(isNavigationBarPinned) ==>
                isNavigationBarVisible && containerShown && showAnimationRunning && !hideAnimationRunning &&
                autoHideTimerRunning == (old(autoHideTimerRunning) || !isMouseInTopArea)
      ensures isNavigationBarPinned == old(isNavigationBarPinned) && isMouseInTopArea == old(isMouseInTopArea)
    {
      if isNavigationBarPinned {
        return;
      }
      isNavigationBarVisible := true;
      containerShown := true;
      if hideAnimationRunning {
        hideAnimationRunning := false;
      }
      showAnimationRunning := true;
      if !isMouseInTopArea {
        StartAutoHideTimer();
      }
    }

    /** `toggleNavigationBar`: the pin flips, and the bar is visible exactly when pinned now. */
    method ToggleNavigationBar()
      requires Inv()
      modifies this
      ensures Inv()
      ensures isNavigationBarPinned == !old(isNavigationBarPinned)
      ensures isNavigationBarVisible == isNavigationBarPinned
      ensures !autoHideTimerRunning
      ensures isNavigationBarPinned ==> containerShown && showAnimationRunning && !hideAnimationRunning
      ensures !isNavigationBarPinned ==>
                containerShown == old(containerShown) && !showAnimationRunning && hideAnimationRunning
      ensures isMouseInTopArea == old(isMouseInTopArea)
    {
      if isNavigationBarPinned {
        HideNavigationBar();
        isNavigationBarPinned := false;
      } else {
        ShowNavigationBarPermanently();
        isNavigationBarPinned := true;
      }
    }

    /**
     * `handleMouseMove`: entering the top area shows a hidden unpinned bar;
     * leaving it restarts the auto-hide timer of a visible unpinned bar.
     * Every other move (inside or outside the area, or a crossing with a
     * pinned bar, a visible bar on entry or a hidden bar on exit) only
     * records where the mouse is.
     */
    method HandleMouseMove(mouseY: real)
      requires Inv()
      modifies this
      ensures Inv()
      ensures isMouseInTopArea == (mouseY <= TopTriggerHeight)
      ensures isNavigationBarPinned == old(isNavigationBarPinned)
      ensures var shows := mouseY <= TopTriggerHeight && !old(isMouseInTopArea) &&
                           !old(isNavigationBarVisible) && !old(isNavigationBarPinned);
              shows ==>
                isNavigationBarVisible && containerShown && showAnimationRunning && !hideAnimationRunning &&
                autoHideTimerRunning == old(autoHideTimerRunning)
      ensures var shows := mouseY <= TopTriggerHeight && !old(isMouseInTopArea) &&
                           !old(isNavigationBarVisible) && !old(isNavigationBarPinned);
              !shows ==>
                isNavigationBarVisible == old(isNavigationBarVisible) && containerShown == old(containerShown) &&
                showAnimationRunning == old(showAnimationRunning) && hideAnimationRunning == old(hideAnimationRunning)
      ensures var restarts := mouseY > TopTriggerHeight && old(isMouseInTopArea) &&
                              !old(isNavigationBarPinned) && old(isNavigationBarVisible);
              autoHideTimerRunning == (old(autoHideTimerRunning) || restarts)
    {
      if mouseY <= TopTriggerHeight {
        if !isMouseInTopArea {
          isMouseInTopArea := true;
          if !isNavigationBarVisible && !isNavigationBarPinned {
            ShowNavigationBarTemporarily();
          }
        }
      } else {
        if isMouseInTopArea {
          isMouseInTopArea := false;
          if !isNavigationBarPinned && isNavigationBarVisible {
            StartAutoHideTimer();
          }
        }
      }
    }

    /** `handleScroll`: scrolling up within twice the trigger height shows a hidden unpinned bar. */
    method HandleScroll(deltaY: real, mouseY: real)
      requires Inv()
      modifies this
      ensures Inv()
      ensures deltaY > 0.0 && mouseY <= TopTriggerHeight * 2.0 && !old(isNavigationBarVisible) &&
              !old(isNavigationBarPinned) ==>
                isNavigationBarVisible && containerShown && showAnimationRunning && !hideAnimationRunning &&
                autoHideTimerRunning == (old(autoHideTimerRunning) || !isMouseInTopArea)
      ensures !(deltaY > 0.0 && mouseY <= TopTriggerHeight * 2.0 && !old(isNavigationBarVisible) &&
                !old(isNavigationBarPinned)) ==>
                isNavigationBarVisible == old(isNavigationBarVisible) &&
                autoHideTimerRunning == old(autoHideTimerRunning) && containerShown == old(containerShown) &&
                showAnimationRunning == old(showAnimationRunning) && hideAnimationRunning == old(hideAnimationRunning)
      ensures isNavigationBarPinned == old(isNavigationBarPinned) && isMouseInTopArea == old(isMouseInTopArea)
    {
      if deltaY > 0.0 {
        if mouseY <= TopTriggerHeight * 2.0 {
          if !isNavigationBarVisible && !isNavigationBarPinned {
            ShowNavigationBarTemporarily();
          }
        }
      }
    }

    /** The mouse enters the controls: it counts as the top area, and the timer stops. */
    method MouseEnteredControls()
      requires Inv()
      modifies this
      ensures Inv()
      ensures isMouseInTopArea && !autoHideTimerRunning
      ensures isNavigationBarVisible == old(isNavigationBarVisible) && isNavigationBarPinned == old(isNavigationBarPinned)
      ensures containerShown == old(containerShown)
      ensures showAnimationRunning == old(showAnimationRunning) && hideAnimationRunning == old(hideAnimationRunning)
    {
      isMouseInTopArea := true;
      autoHideTimerRunning := false;
    }

    /** The mouse leaves the controls: an unpinned bar's timer restarts. */
    method MouseExitedControls()
      requires Inv()
      modifies this
      ensures Inv()
      ensures !isMouseInTopArea
      ensures autoHideTimerRunning == (!isNavigationBarPinned || old(autoHideTimerRunning))
      ensures isNavigationBarVisible == old(isNavigationBarVisible) && isNavigationBarPinned == old(isNavigationBarPinned)
      ensures containerShown == old(containerShown)
      ensures showAnimationRunning == old(showAnimationRunning) && hideAnimationRunning == old(hideAnimationRunning)
    {
      isMouseInTopArea := false;
      if !isNavigationBarPinned {
        StartAutoHideTimer();
      }
    }

    /** The auto-hide delay has passed: an unpinned bar away from the mouse hides. */
    method AutoHideTimerFinished()
      requires Inv() && autoHideTimerRunning
      modifies this
      ensures Inv()
      ensures !autoHideTimerRunning
      ensures !isMouseInTopArea ==> !isNavigationBarVisible && !showAnimationRunning && hideAnimationRunning
      ensures isMouseInTopArea ==>
                isNavigationBarVisible == old(isNavigationBarVisible) &&
                showAnimationRunning == old(showAnimationRunning) && hideAnimationRunning == old(hideAnimationRunning)
      ensures isNavigationBarPinned == old(isNavigationBarPinned) && isMouseInTopArea == old(isMouseInTopArea)
      ensures containerShown == old(containerShown)
    {
      autoHideTimerRunning := false;
      if !isNavigationBarPinned && !isMouseInTopArea {
        HideNavigationBar();
      }
    }

    /** The fade-in has finished: the container is shown. */
    method ShowAnimationFinished()
      requires Inv() && showAnimationRunning
      modifies this
      ensures Inv()
      ensures !showAnimationRunning && containerShown
      ensures isNavigationBarVisible == old(isNavigationBarVisible) && isNavigationBarPinned == old(isNavigationBarPinned)
      ensures isMouseInTopArea == old(isMouseInTopArea) && autoHideTimerRunning == old(autoHideTimerRunning)
      ensures hideAnimationRunning == old(hideAnimationRunning)
    {
      showAnimationRunning := false;
      containerShown := true;
    }

    /** The fade-out has finished: the container goes away unless the bar was pinned meanwhile. */
    method HideAnimationFinished()
      requires Inv() && hideAnimationRunning
      modifies this
      ensures Inv()
      ensures !hideAnimationRunning
      ensures containerShown == (old(containerShown) && isNavigationBarPinned)
      ensures isNavigationBarVisible == old(isNavigationBarVisible) && isNavigationBarPinned == old(isNavigationBarPinned)
      ensures isMouseInTopArea == old(isMouseInTopArea) && autoHideTimerRunning == old(autoHideTimerRunning)
      ensures showAnimationRunning == old(showAnimationRunning)
    {
      hideAnimationRunning := false;
      if !isNavigationBarPinned {
        containerShown := false;
      }
    }

    /**
     * `setNavigationBarPinned`: pinning shows the bar for good; unpinning
     * hides it unless the mouse is over the top area.
     */
    method SetNavigationBarPinned(pinned: bool)
      requires Inv()
      modifies this
      ensures Inv()
      ensures isNavigationBarPinned == pinned
      ensures pinned ==>
                isNavigationBarVisible && containerShown && !autoHideTimerRunning &&
                showAnimationRunning && !hideAnimationRunning
      ensures !pinned && !isMouseInTopArea ==>
                !isNavigationBarVisible && containerShown == old(containerShown) && !autoHideTimerRunning &&
                !showAnimationRunning && hideAnimationRunning
      ensures !pinned && isMouseInTopArea ==>
                isNavigationBarVisible == old(isNavigationBarVisible) && containerShown == old(containerShown) &&
                autoHideTimerRunning == old(autoHideTimerRunning) &&
                showAnimationRunning == old(showAnimationRunning) && hideAnimationRunning == old(hideAnimationRunning)
      ensures isMouseInTopArea == old(isMouseInTopArea)
    {
      if pinned {
        ShowNavigationBarPermanently();
      } else {
        isNavigationBarPinned := false;
        if !isMouseInTopArea {
          HideNavigationBar();
        }
      }
    }

    /** `cleanup`: the timer and both fades stop; the flags stay. */
    method Cleanup()
      requires Inv()
      modifies this
      ensures Inv()
      ensures !autoHideTimerRunning && !showAnimationRunning && !hideAnimationRunning
      ensures isNavigationBarVisible == old(isNavigationBarVisible) && isNavigationBarPinned == old(isNavigationBarPinned)
      ensures isMouseInTopArea == old(isMouseInTopArea) && containerShown == old(containerShown)
    {
      autoHideTimerRunning := false;
      showAnimationRunning := false;
      hideAnimationRunning := false;
    }

    /** `reset`: back to the initial state; running fades are left alone. */
    method Reset()
      requires Inv()
      modifies this
      ensures Inv() && IsInitial()
      ensures showAnimationRunning == old(showAnimationRunning) && hideAnimationRunning == old(hideAnimationRunning)
    {
      isNavigationBarPinned := true;
      isNavigationBarVisible := true;
      isMouseInTopArea := false;
      autoHideTimerRunning := false;
      containerShown := true;
    }
  }
}
