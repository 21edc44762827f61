# Avatar resolution and UI helpers of the Messaging app, in Dafny

This project models the sequential decision logic of four classes of the Android Messaging
application:

- **AvatarRequest** (`avatar_request.dfy`). The avatar-resolution policy of the media pipeline:
  - a descriptor URI that names a local resource is loaded through the superclass;
  - when that yields no bitmap, an avatar is synthesised for the fallback URI, or for the
    default background avatar URI when there is no fallback;
  - a descriptor that is not a local resource is synthesised from its own URI;
  - synthesis draws a letter tile for a letter-tile URI and the default person glyph otherwise,
    on a background colour picked from a palette by the identifier's `String.hashCode`.
  Images are values: their size, background colour and glyph placement, not pixels.
- **DebugUtils** (`debug_utils.dfy`). `getCaller`, which finds a caller's frame in a stack
  trace, and `logCurrentMethod`, which logs `SimpleClass.method` for it.
- **UiUtils** (`ui_utils.dfy`). `getActivity` over a chain of context wrappers, the permission
  redirect, the readiness rules, the comma-ellipsis fallback, the reveal/hide animation
  decision and a view's measured bounds on screen. Activities, views and the main-thread
  handler are classes whose fields the methods update.
- **PhoneNumberPreference** (`phone_number_preference.dfy`). A class holding the stored value,
  the default number and the subscription id, with the rule that clears a value equivalent to
  the default and the summary shown for the setting.

`java_lang.dfy` gives Java's 32-bit `int` semantics as the code uses them: wrap-around,
`Math.abs`, the truncating `/` and `%`, the float-to-int cast and `String.hashCode`, with a
proof that the hash is the polynomial `s[0]*31^(n-1) + ... + s[n-1]` reduced modulo 2^32.
`wrappers.dfy` holds `Option` (a Java reference that may be null) and `Result` (a value or a
thrown exception).

Code the model cannot see is passed in as values:
- the URI helpers `UriUtil` and `AvatarUriUtil` and `String.toUpperCase` are a record of
  functions (`AvatarRequest.Collaborators`);
- the outcome of the superclass load is a parameter (`AvatarRequest.SuperLoad`);
- the resource values (contact colours on or off, palette length, letter-to-tile ratio,
  person glyph size) are a record (`AvatarRequest.AvatarResources`);
- the stack trace, `LogUtil.isLoggable` and `OsUtil.hasRequiredPermissions` are parameters;
- `PhoneUtils` canonicalisation and formatting, `BidiFormatter` and the "unknown number"
  string are a record (`PhoneNumberPreference.PhoneFormatting`);
- the result of `TextUtils.commaEllipsize` is a parameter of `UiUtils.CommaEllipsize`.

`AvatarRequest.CacheId` gives the request's cache, `AVATAR_IMAGE_CACHE`. Its number is defined
in `BugleMediaCacheManager`, which is not part of this model, so the caches are an enumeration:
the avatar cache and the caches of other request kinds, by id.

`AvatarRequest.StreamUri` models `getInputStreamForResource` on its own. The superclass load that
calls it is not part of this model, so `LoadMediaInternal` takes the load's outcome as an input
that is not tied to `StreamUri`.

## Model

| member | source | states |
|---|---|---|
| JavaLang.Wrap | src/com/android/messaging/util/UiUtils.java:246-247 | a Java `int` sum is the exact sum modulo 2^32, and equals it when no overflow occurs |
| JavaLang.Abs | src/com/android/messaging/datamodel/media/AvatarRequest.java:165 | `Math.abs` is negative exactly for `Integer.MIN_VALUE`, which it returns unchanged; otherwise it is the absolute value |
| JavaLang.Rem | src/com/android/messaging/datamodel/media/AvatarRequest.java:165 | Java's `%` by a positive divisor lies strictly between minus and plus the divisor, agrees with the mathematical remainder for a non-negative dividend and is never positive for a negative one |
| JavaLang.Quot | src/com/android/messaging/datamodel/media/AvatarRequest.java:138-139 | Java's `/` rounds toward zero: quotient times divisor plus Java remainder gives back the dividend |
| JavaLang.Truncate | src/com/android/messaging/datamodel/media/AvatarRequest.java:131 | the `(int)` cast of a float drops the fraction toward zero: its magnitude is within 1 below the float's, with the same sign |
| JavaLang.HashWordIsPolynomial | src/com/android/messaging/datamodel/media/AvatarRequest.java:165 | `String.hashCode` (the 31*h + c recurrence modulo 2^32) equals the polynomial sum of the characters reduced modulo 2^32 |
| AvatarRequest.StreamUri | src/com/android/messaging/datamodel/media/AvatarRequest.java:55-64 | the stream is opened on the descriptor URI when it is a local resource, else on its primary URI, which must be a local resource or the assertion fails; any URI opened is a local resource |
| AvatarRequest.PaletteIndexAsWritten | src/com/android/messaging/datamodel/media/AvatarRequest.java:165 | `abs(hash) % length` as written: fails exactly for an empty palette, lies strictly between minus and plus the length, and is non-negative unless the hash is `MIN_VALUE` |
| AvatarRequest.PaletteIndexNegativeForMinValue | src/com/android/messaging/datamodel/media/AvatarRequest.java:165 | for `MIN_VALUE` and any palette length that does not divide 2^31, the index as written is negative |
| AvatarRequest.MinValueIdentifier | src/com/android/messaging/datamodel/media/AvatarRequest.java:165 | the identifier "polygenelubricants" has `String.hashCode() == Integer.MIN_VALUE` |
| AvatarRequest.PaletteIndex | src/com/android/messaging/datamodel/media/AvatarRequest.java:165 | the corrected index lies in [0, length) for every hash and fails only for an empty palette; it equals the index as written for every hash other than `MIN_VALUE` |
| AvatarRequest.CacheId | src/com/android/messaging/datamodel/media/AvatarRequest.java:173-176 | every avatar request, whatever its descriptor, belongs to the avatar image cache |
| AvatarRequest.BackgroundColor | src/com/android/messaging/datamodel/media/AvatarRequest.java:162-171 | the primary colour for an empty identifier or with contact colours off; otherwise a failure exactly when the palette is empty, else a palette colour with an index inside the palette: the index as written `abs(hashCode) % length` for every identifier whose hash is not `MIN_VALUE`, and 2^31 mod length for one whose hash is |
| AvatarRequest.RenderDefaultAvatar | src/com/android/messaging/datamodel/media/AvatarRequest.java:121-135 | a default-person image of the requested size on the identifier's colour; it fails exactly when the colour fails, with the colour's failure; the glyph box is at most the target size, so both centring offsets are non-negative; it keeps its 1.33 scaled size when that fits and its bounds are non-negative for non-negative sizes |
| AvatarRequest.RenderLetterTile | src/com/android/messaging/datamodel/media/AvatarRequest.java:137-160 | a letter tile of the requested size on the identifier's colour, showing the upper-cased first character of the name; a colour failure is passed on, and otherwise an empty name fails with a string-index failure; text size is ratio times min(width, height); the half sizes are integer halves |
| AvatarRequest.Synthesize | src/com/android/messaging/datamodel/media/AvatarRequest.java:110-116 | succeeds exactly when the descriptor's colour succeeds and, for a letter-tile URI, the name is non-empty; a colour failure is passed on, an empty letter-tile name gives a string-index failure; exactly one renderer runs: a letter tile iff the generated URI is a letter-tile URI, the default person otherwise; the image has the requested size and the colour of the descriptor's own identifier, never the fallback's |
| AvatarRequest.LoadMediaInternal | src/com/android/messaging/datamodel/media/AvatarRequest.java:74-119 | a non-local descriptor is synthesised from its own URI with orientation NORMAL; a loaded bitmap is returned unchanged with its orientation; a null bitmap falls back keeping the loaded orientation; an exception falls back with orientation NORMAL; falling back uses the fallback URI, else the default avatar; an Error propagates; the result is keyed by the request key |
| DebugUtils.SelfFrameFrom | src/com/android/messaging/util/DebugUtils.java:127-132 | the search finds the first getCaller frame below the last index, and no earlier frame is one |
| DebugUtils.CallerAsWritten | src/com/android/messaging/util/DebugUtils.java:116-135 | as written, with `int` sums for `depth + 2` and `i + depth + 1`: a negative depth throws; a null trace, one shorter than the wrapped `depth + 2`, or one without a getCaller frame gives null; otherwise the frame at the wrapped index, and an index failure when that index is negative or past the end; any frame returned lies after the getCaller frame |
| DebugUtils.GetCallerAsWritten | src/com/android/messaging/util/DebugUtils.java:116-135 | the loop as written returns exactly what `CallerAsWritten` describes |
| DebugUtils.GetCallerAsWrittenOverrun | src/com/android/messaging/util/DebugUtils.java:122-130 | a four-frame trace with getCaller at index 2 passes the length guard for depth 1 and makes the code read index 4, an index failure |
| DebugUtils.CallerAsWrittenWrapsAtMaxDepth | src/com/android/messaging/util/DebugUtils.java:122-130 | with depth `Integer.MAX_VALUE` the guard `depth + 2` wraps negative, so a three-frame trace passes it, and the index read wraps to `Integer.MIN_VALUE`, an index failure |
| DebugUtils.CallerAsWrittenAgrees | src/com/android/messaging/util/DebugUtils.java:116-135 | for a non-negative depth, whenever the code as written returns normally it returns the intended frame, and whenever it throws no intended frame exists |
| DebugUtils.Caller | src/com/android/messaging/util/DebugUtils.java:116-135 | the intended caller frame exists exactly when the trace is long enough, holds a getCaller frame and has a frame depth+1 past it, and is that frame |
| DebugUtils.GetCaller | src/com/android/messaging/util/DebugUtils.java:116-135 | the corrected loop, with the sums taken without overflow, returns the intended caller frame or null, and fails only for a negative depth |
| DebugUtils.LastIndexOf | src/com/android/messaging/util/DebugUtils.java:98 | `lastIndexOf` gives -1 or an index holding the character, with no later occurrence |
| DebugUtils.SimpleClassName | src/com/android/messaging/util/DebugUtils.java:96-101 | the stripped name has no dot; a name without a dot is unchanged; otherwise it is the suffix right after the last dot |
| DebugUtils.LogCurrentMethod | src/com/android/messaging/util/DebugUtils.java:88-103 | nothing is logged when logging is off or the caller is missing, in particular when the code as written returns null; otherwise the line is the caller's simple class name, a dot and its method name |
| UiUtils.GetActivityIsFirstOnChain | src/com/android/messaging/util/UiUtils.java:328-341 | `getActivity(context)` is the first Activity on the chain of base contexts, and null when the chain has none |
| UiUtils.GetActivityOfView | src/com/android/messaging/util/UiUtils.java:316-321 | null for a null view, else the first Activity on the chain of the view's context |
| UiUtils.RedirectToPermissionCheckIfNeeded | src/com/android/messaging/util/UiUtils.java:270-281 | returns true iff permissions are missing, and exactly then launches the permission check once and calls `finish()` once |
| UiUtils.IsReadyForAction | src/com/android/messaging/util/UiUtils.java:289-309 | ready for action iff SMS capable and ready for delete, so readiness for action implies readiness for delete |
| UiUtils.CommaEllipsize | src/com/android/messaging/util/UiUtils.java:177-193 | the ellipsized text unless it is empty, then the original; the result is empty only when both are |
| UiUtils.RevealOrHideViewWithAnimation | src/com/android/messaging/util/UiUtils.java:201-241 | the view ends with the desired visibility; it is animated iff its visibility changes, scaling 0 to 1 to reveal and 1 to 0 otherwise; the finish callback is posted now when not animating and carried to the animation's end otherwise |
| UiUtils.OnAnimationEnd | src/com/android/messaging/util/UiUtils.java:222-230 | at the end of the animation its finish callback, if any, is posted once |
| UiUtils.GetMeasuredBoundsOnScreen | src/com/android/messaging/util/UiUtils.java:243-248 | the rectangle starts at the view's screen location and, without overflow, its width and height are the measured ones |
| PhoneNumberPreference.StoredText | src/com/android/messaging/ui/appsettings/PhoneNumberPreference.java:78-94 | the stored text is the given text or empty: empty when a default exists and is canonically equal, the text unchanged otherwise, including with no default |
| PhoneNumberPreference.PhoneNumberPreference.constructor | src/com/android/messaging/ui/appsettings/PhoneNumberPreference.java:47-50 | a new preference has the empty default number and no stored value |
| PhoneNumberPreference.PhoneNumberPreference.SetDefaultPhoneNumber | src/com/android/messaging/ui/appsettings/PhoneNumberPreference.java:52-55 | only the default number and subscription id change; the stored value does not |
| PhoneNumberPreference.PhoneNumberPreference.GetSummary | src/com/android/messaging/ui/appsettings/PhoneNumberPreference.java:63-76 | the formatted stored value, else the formatted default, else the unknown-number text, always LTR-wrapped |
| PhoneNumberPreference.PhoneNumberPreference.SetText | src/com/android/messaging/ui/appsettings/PhoneNumberPreference.java:78-94 | stores the text with the default-clearing rule and changes nothing else; after a default-equivalent non-empty default, the summary shows the formatted default |

## Left out

- Pixel rendering: canvases, paints, typefaces, the vector drawable, text-bound measurement and the float text offsets. Images record size, colour and glyph placement only.
- Float arithmetic: `SCALING_FACTOR` (the float 1.33f) and the letter-to-tile ratio are exact reals. Rounding of float products is not modelled.
- AvatarRequest.BackgroundColor: uses the corrected palette index, so for an identifier whose hash is `Integer.MIN_VALUE` it names index 2^31 mod length where the code as written reads the negative index `PaletteIndexAsWritten` gives; what `getColor` does with that negative index is not modelled. For every other identifier the index is the one the code computes.
- DebugUtils.LogCurrentMethod: calls the corrected `getCaller`, so where the code as written throws `ArrayIndexOutOfBoundsException` (see `CallerAsWritten`) the model logs nothing instead of propagating the exception. Wherever the code as written returns normally, `CallerAsWrittenAgrees` shows both pick the same frame.
- Which colour `TypedArray.getColor` returns for a palette index, including its default when the entry is undefined. The model names the index only.
- The superclass `UriImageRequest`, the bitmap pool (`createOrReuseBitmap`, including how it rejects non-positive sizes), the media cache manager, coalescing, reference counting and threading. The superclass load is an input outcome; the main-thread assertion is the precondition `ctx == WorkerThread`.
- `Assert.isTrue` in `getInputStreamForResource` is modelled as a thrown failure. The `Assert` class is not part of this model, and a build in which it only logs is not modelled.
- A null name or identifier from `AvatarUriUtil` is folded into the empty string. It fails the same way (`substring`) or is treated the same way (`TextUtils.isEmpty`).
- Java `char` is a UTF-16 code unit; here a string is a sequence of Unicode scalar values. Characters outside the Basic Multilingual Plane are not split into surrogate pairs for `hashCode` or `substring(0, 1)`.
- `Thread.getStackTrace`, `LogUtil` and the debug-file helpers (`getDebugFile`, `getDebugFilesDir`, `receiveFromDumpFile`, `ensureReadable`) are I/O. The trace and the loggable flag are inputs; the log call is the line returned.
- UiUtils toasts, snack bars, interpolators, `doOnceAfterLayoutChange`, `isLandscapeMode`, `isRtlMode`, `setStatusBarColor` and `getWidgetMissingPermissionView` are presentation or configuration reads. The animation duration and interpolator are dropped too.
- UiUtils.RevealOrHideViewWithAnimation: `clearAnimation` simply drops a previous animation. Whether the dropped animation's own listener still fires is not modelled.
- `PhoneNumberPreference.onBindViewHolder` (input type of the editor) and the persistence done by `EditTextPreference.setText` are not modelled. `setText(null)` is not modelled; the model takes a non-null text.
- `ApnDatabase`, `CarrierConfigValuesLoader`, `BugleGservicesKeys` and `ArchivedConversationListActivity` are persistence, constants or activity UI.

## Findings

| source | as written | input that shows it | evidently intended | confidence | as-written member | corrected member |
|---|---|---|---|---|---|---|
| src/com/android/messaging/datamodel/media/AvatarRequest.java:165 | `Math.abs(identifier.hashCode()) % mColors.length()` | identifier "polygenelubricants" (hash `Integer.MIN_VALUE`) with a palette of 12 colours gives index -8 | an index in [0, length), e.g. `(int) (Math.abs((long) hash) % length)` | medium, not executed | AvatarRequest.PaletteIndexAsWritten, AvatarRequest.PaletteIndexNegativeForMinValue, AvatarRequest.MinValueIdentifier | AvatarRequest.PaletteIndex |
| src/com/android/messaging/util/DebugUtils.java:122-130 | guard `trace.length < depth + 2`, then `trace[i + depth + 1]`, both `int` sums | depth 1 and the four-frame trace getThreadStackTrace, getStackTrace, getCaller, logCurrentMethod: index 4 of a length-4 array; depth `Integer.MAX_VALUE` and a three-frame trace starting with getCaller: index `Integer.MIN_VALUE` | null when the requested frame is not on the trace | low, not executed (real traces are usually deeper) | DebugUtils.CallerAsWritten, DebugUtils.GetCallerAsWritten, DebugUtils.GetCallerAsWrittenOverrun, DebugUtils.CallerAsWrittenWrapsAtMaxDepth | DebugUtils.GetCaller |
