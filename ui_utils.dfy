/**
 * The decision logic of UiUtils: finding the Activity behind a context, the permission
 * redirect, the readiness rules, the comma-ellipsis fallback, the reveal/hide animation
 * of a view and a view's measured bounds on screen.
 */
module UiUtils {
  import opened Wrappers
  import opened JavaLang

  /** View.VISIBLE. */
  const Visible: int := 0

  /** An Activity: how often finish() and the permission-check launch were called on it. */
  class Activity {
    var finishCalls: nat
    var permissionCheckLaunches: nat

    constructor ()
      ensures finishCalls == 0 && permissionCheckLaunches == 0
    {
      finishCalls := 0;
      permissionCheckLaunches := 0;
    }
  }

  /**
   * A Context: an Activity, some other ContextWrapper with its (possibly null) base context,
   * or any other context, such as the application context.
   */
  datatype Context =
    | ActivityContext(activity: Activity, base: Option<Context>)
    | WrapperContext(base: Option<Context>)
    | PlainContext

  /** getActivity(Context): unwraps context wrappers until an Activity or the end of the chain. */
  function GetActivity(context: Option<Context>): Option<Activity> {
    match context
    case None => None
    case Some(ActivityContext(activity, _)) => Some(activity)
    case Some(WrapperContext(base)) => GetActivity(base)
    case Some(PlainContext) => None
  }

  /** The contexts reached from `context` by following base-context links. */
  function Chain(context: Option<Context>): seq<Context> {
    match context
    case None => []
    case Some(PlainContext) => [PlainContext]
    case Some(c) => [c] + Chain(c.base)
  }

  /** The position of the first Activity in a chain of contexts, or its length if there is none. */
  function FirstActivityIndex(chain: seq<Context>): (k: nat)
    ensures k <= |chain|
    ensures k < |chain| ==> chain[k].ActivityContext?
    ensures forall j :: 0 <= j < k ==> !chain[j].ActivityContext?
  {
    if chain == [] || chain[0].ActivityContext? then 0 else 1 + FirstActivityIndex(chain[1..])
  }

  /** getActivity finds the first Activity on the wrapper chain, and null when there is none. */
  lemma {:induction false} GetActivityIsFirstOnChain(context: Option<Context>)
    ensures var chain := Chain(context);
            var k := FirstActivityIndex(chain);
            GetActivity(context) == if k < |chain| then Some(chain[k].activity) else None
  {
    match context
    case None =>
    case Some(PlainContext) =>
    case Some(ActivityContext(_, _)) =>
    case Some(WrapperContext(base)) =>
      GetActivityIsFirstOnChain(base);
      assert Chain(context)[1..] == Chain(base);
  }

  /** A View: its context, visibility, current animation, screen location and measured size. */
  class View {
    var context: Option<Context>
    var visibility: int
    var animation: Option<ScaleAnimation>
    var screenX: int32
    var screenY: int32
    var measuredWidth: int32
    var measuredHeight: int32

    constructor (context: Option<Context>, visibility: int)
      ensures this.context == context && this.visibility == visibility && animation == None
    {
      this.context := context;
      this.visibility := visibility;
      animation := None;
    }
  }

  /** getActivity(View): none for a null view, else the first Activity behind its context. */
  function GetActivityOfView(view: View?): (r: Option<Activity>)
    reads view
    ensures view == null ==> r == None
    ensures view != null ==>
      var chain := Chain(view.context);
      var k := FirstActivityIndex(chain);
      r == if k < |chain| then Some(chain[k].activity) else None
  {
    if view == null then None
    else
      GetActivityIsFirstOnChain(view.context);
      GetActivity(view.context)
  }

  /**
   * redirectToPermissionCheckIfNeeded: without the required permissions, launch the
   * permission check and finish the activity; report whether that happened.
   */
  method RedirectToPermissionCheckIfNeeded(activity: Activity, hasRequiredPermissions: bool)
    returns (redirected: bool)
    modifies activity
    ensures redirected <==> !hasRequiredPermissions
    ensures activity.finishCalls == old(activity.finishCalls) + (if redirected then 1 else 0)
    ensures activity.permissionCheckLaunches == old(activity.permissionCheckLaunches) + (if redirected then 1 else 0)
  {
    if !hasRequiredPermissions {
      activity.permissionCheckLaunches := activity.permissionCheckLaunches + 1;
    } else {
      return false;
    }
    activity.finishCalls := activity.finishCalls + 1;
    return true;
  }

  /** What PhoneUtils reports about the device and the app. */
  datatype SmsStatus = SmsStatus(isSmsCapable: bool, isDefaultSmsApp: bool)

  /** isReadyForDeleteAction: the app is the default SMS app. */
  function IsReadyForDeleteAction(status: SmsStatus): bool {
    status.isDefaultSmsApp
  }

  /** isReadyForAction: the device is SMS capable and the app may delete, so it may also delete. */
  function IsReadyForAction(status: SmsStatus): (r: bool)
    ensures r ==> IsReadyForDeleteAction(status)
    ensures r <==> status.isSmsCapable && IsReadyForDeleteAction(status)
  {
    status.isSmsCapable && status.isDefaultSmsApp
  }

  /**
   * commaEllipsize: the text TextUtils.commaEllipsize produced (`ellipsized`), or the
   * original text when that is empty; the result is empty only when both are.
   */
  function CommaEllipsize(text: string, ellipsized: string): (r: string)
    ensures r == ellipsized || r == text
    ensures ellipsized != [] ==> r == ellipsized
    ensures r == [] <==> text == [] && ellipsized == []
  {
    if ellipsized == [] then text else ellipsized
  }

  /** A posted callback. */
  datatype Runnable = Runnable(id: nat)

  /** A scale animation from the view centre, and the callback it posts when it ends. */
  datatype ScaleAnimation = ScaleAnimation(fromScale: real, toScale: real, onEnd: Option<Runnable>)

  /** The main-thread handler: the callbacks posted to it, in order. */
  class MainThreadHandler {
    var posted: seq<Runnable>

    constructor ()
      ensures posted == []
    {
      posted := [];
    }
  }

  /**
   * revealOrHideViewWithAnimation: animate only when the visibility changes, growing from
   * nothing to reveal and shrinking to nothing to hide; either way the view ends with the
   * desired visibility, and the finish callback is posted once: now when nothing is animated,
   * at the end of the animation otherwise.
   */
  method RevealOrHideViewWithAnimation(view: View, desiredVisibility: int, onFinish: Option<Runnable>,
                                       handler: MainThreadHandler)
    modifies view`visibility, view`animation, handler
    ensures view.visibility == desiredVisibility
    ensures old(view.visibility) != desiredVisibility ==>
      view.animation.Some? &&
      view.animation.value.onEnd == onFinish &&
      handler.posted == old(handler.posted)
    ensures old(view.visibility) != desiredVisibility && desiredVisibility == Visible ==>
      view.animation.value.fromScale == 0.0 && view.animation.value.toScale == 1.0
    ensures old(view.visibility) != desiredVisibility && desiredVisibility != Visible ==>
      view.animation.value.fromScale == 1.0 && view.animation.value.toScale == 0.0
    ensures old(view.visibility) == desiredVisibility ==>
      view.animation == old(view.animation) &&
      handler.posted == old(handler.posted) + (if onFinish.Some? then [onFinish.value] else [])
  {
    var needAnimation := view.visibility != desiredVisibility;
    if needAnimation {
      var fromScale := if desiredVisibility == Visible then 0.0 else 1.0;
      var toScale := if desiredVisibility == Visible then 1.0 else 0.0;
      var showHideAnimation := ScaleAnimation(fromScale, toScale, onFinish);
      view.animation := None;                       // clearAnimation
      view.animation := Some(showHideAnimation);    // startAnimation
      view.visibility := desiredVisibility;
    } else if onFinish.Some? {
      handler.posted := handler.posted + [onFinish.value];
    }
  }

  /** The end of a view's animation: its listener posts the finish callback, if there is one. */
  method OnAnimationEnd(view: View, handler: MainThreadHandler)
    requires view.animation.Some?
    modifies view`animation, handler
    ensures view.animation == None
    ensures var onEnd := old(view.animation.value.onEnd);
            handler.posted == old(handler.posted) + (if onEnd.Some? then [onEnd.value] else [])
  {
    var onEnd := view.animation.value.onEnd;
    if onEnd.Some? {
      handler.posted := handler.posted + [onEnd.value];
    }
    view.animation := None;
  }

  /** android.graphics.Rect. */
  datatype Rect = Rect(left: int32, top: int32, right: int32, bottom: int32) {
    function Width(): int { right as int - left as int }
    function Height(): int { bottom as int - top as int }
  }

  /**
   * getMeasuredBoundsOnScreen: the rectangle at the view's screen location with its measured
   * size; the Java additions wrap around, so the size is exact when they do not overflow.
   */
  function GetMeasuredBoundsOnScreen(view: View): (r: Rect)
    reads view
    ensures r.left == view.screenX && r.top == view.screenY
    ensures InInt32Range(view.screenX as int + view.measuredWidth as int) ==> r.Width() == view.measuredWidth as int
    ensures InInt32Range(view.screenY as int + view.measuredHeight as int) ==> r.Height() == view.measuredHeight as int
  {
    Rect(view.screenX, view.screenY,
         Wrap(view.screenX as int + view.measuredWidth as int),
         Wrap(view.screenY as int + view.measuredHeight as int))
  }
}
