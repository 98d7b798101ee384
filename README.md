# Portfolio page behaviour, modelled in Dafny

This project models the decision rules inside the event handlers of the portfolio page's
controller, `app.js`. The DOM becomes plain state:

- the `section[id]` elements are a sequence of `(id, offsetTop, offsetHeight)`;
- the `.nav-link` elements are an array of `(href, active)`, changed in place;
- the mobile menu is two class flags on a small class;
- the controller's one-shot `skillBarsAnimated` guard is a field of `PortfolioApp`;
- time is a logical clock in milliseconds. Scheduled callbacks are recorded with their delay, or
  kept as pending timers that the event loop runs when they fall due.

Modules, one per component:

- `Wrappers` (`wrappers.dfy`): `Option`, for attributes and elements that may be absent.
- `Seqs` (`seqs.dfy`): a shared fact about sequence concatenation used by the proofs.
- `Navigation` (`navigation.dfy`): the scroll listener's active-link rule and `updateActiveNavLink`.
- `SmoothScroll` (`smooth_scroll.dfy`): the anchor-click filter, the target lookup
  (`getElementById`), the clamped offset, and the unclamped hero scroll indicator.
- `MobileNav` (`mobile_nav.dfy`): the toggle and close handlers of `setupMobileNav`.
- `Animations` (`animations.dfy`): `animateSkillBars` with its guard and stagger,
  `animateProjectCards` without a guard, and the IntersectionObserver callback that dispatches to them.
- `Typing` (`typing.dfy`): the self-rescheduling `typeWriter` loop of `setupTypingAnimation`.
- `Timing` (`timing.dfy`): `throttle` and `Utils.debounce`, each as a class over its closure
  variable, a driver method, and a trace function with its proved properties.
- `Viewport` (`viewport.dfy`): `Utils.isInViewport`.

Timing convention: the model assumes every timer runs exactly at its due time, and that when an
event arrives at time t every timer due at or before t has already run. This settles the tie when
a call lands exactly on a timer's due time. `setTimeout` itself promises only a minimum delay, so
timers that run late are outside the model; "## Left out" says what that changes. The rule also
does not distinguish a call made in the same task as the one that set a 0 ms timer.

The scroll handler compares `scrollY + 100` with `offsetTop - 150` (app.js:50, 64), so a section
becomes active 250 pixels before its top. For example, with sections at [0,500), [500,1200) and
[1200,2000), scroll position 600 selects the second section; `Navigation.ScrollExample` proves it.

## Model

| member | source | states |
|---|---|---|
| Navigation.ScrollFold | app.js:63-75 | the per-section link loops keep the number of links and every href, keep at most one distinct href active, and change nothing when no section matches |
| Navigation.LastMatch | app.js:63-68 | None exactly when no section has `top-150 <= scrollY+100 < top-150+height`; otherwise the id of a matching section with no matching section after it in document order |
| Navigation.ScrollFoldIsLastMatch | app.js:62-76 | running the link loop once per matching section, in document order, leaves the links unchanged when nothing matches and otherwise equals one link loop for the last match |
| Navigation.ActivateTwice | app.js:69-74 | a second link loop wipes out the first: only the later target's marking remains |
| Navigation.ActivateMarksTarget | app.js:285-290 | after the link loop each link keeps its href and is active iff its href is `"#"+id`, so every active link has the same href |
| Navigation.ScrollExample | app.js:50-68 | sections at [0,500), [500,1200), [1200,2000) with scrollY 600 select the second section |
| Navigation.UpdateActiveNavLink | app.js:283-291 | the array afterwards: hrefs unchanged, a link active iff its href is `"#"+targetId`, at most one distinct href active |
| Navigation.OnScroll | app.js:49-77 | the nav bar gets its scrolled style iff scrollY > 0; the links equal the section-by-section fold, i.e. unchanged on no match and marked for the last match otherwise |
| SmoothScroll.FindById | app.js:241 | `getElementById`: None iff no element has the id; otherwise the first element in document order with it |
| SmoothScroll.Ignores | app.js:233-236 | the early return fires exactly when the href is missing or shorter than 2 characters; the `""` and `"#"` tests are covered by the length test |
| SmoothScroll.ScrollTop | app.js:245-250 | `Math.max(0, offsetTop - 80)` is never negative, is at least offsetTop - 80, and is one of the two |
| SmoothScroll.AnchorClick | app.js:231-251 | a click is ignored iff the href is missing or shorter than 2 characters; a handled click targets `href[1..]`, scrolls iff an element has that id, and the offset is never negative |
| SmoothScroll.ClickOnSectionLink | app.js:233-251 | a click on `"#"+id` (id non-empty) is handled, targets that id, and scrolls to `max(0, top-80)` of the first element with it |
| SmoothScroll.ScrolledSectionMatches | app.js:245-250 | provided the page can scroll as far as `max(0, top - 80)`, scrolling there to a section whose top is at least 80 and whose height exceeds 170 makes the scroll listener's range test claim that section |
| SmoothScroll.OnAnchorClick | app.js:230-264 | the outcome is AnchorClick's; the nav links are re-marked for the target iff the click was handled and the target exists, and are otherwise unchanged |
| SmoothScroll.IndicatorScrollTop | app.js:268-279 | the indicator has a target iff some element has id "about"; it is then the first such element's offsetTop - 80, not clamped at 0 |
| SmoothScroll.IndicatorVersusAnchor | app.js:271-277 | the indicator and a click on "#about" agree on whether there is a target; the click's offset is the indicator's clamped at 0; at offsetTop 50 the indicator asks for -30 and the click for 0 |
| MobileNav.MobileMenu.constructor | app.js:81-85 | handlers are bound iff both the toggle and the menu exist |
| MobileNav.MobileMenu.OnToggleClick | app.js:86-89 | when bound, both flags flip; otherwise nothing changes |
| MobileNav.MobileMenu.OnLinkClick | app.js:92-98 | when bound, both flags become false; otherwise nothing changes |
| MobileNav.RunClicks | app.js:85-99 | over any click sequence each flag follows AfterClicks when bound and is unchanged when not; flags that start equal stay equal |
| MobileNav.LinkClickCloses | app.js:94-97 | a link click closes the menu, so only the clicks after the last link click matter |
| MobileNav.TogglesFlip | app.js:86-89 | without link clicks the flag ends inverted iff there was an odd number of toggle clicks |
| Animations.PortfolioApp.constructor | app.js:165-167 | the guard starts false and nothing is scheduled |
| Animations.Progress | app.js:175 | `getAttribute('data-progress') \|\| '0'` is never empty: it is the attribute's value, or "0" when the attribute is absent or empty |
| Animations.PortfolioApp.AnimateSkillBars | app.js:169-180 | the guard is true afterwards; if it was already true nothing is scheduled, otherwise bar i is scheduled at i*200 ms with width `data-progress` (default "0") + "%" |
| Animations.PortfolioApp.AnimateProjectCards | app.js:183-191 | on every call card i is scheduled at i*150 ms; the guard is untouched |
| Animations.PortfolioApp.OnEntry | app.js:110-122 | an intersecting `skills` entry runs the guarded skill-bar fill, then an intersecting `projects` entry runs the card cascade |
| Animations.PortfolioApp.OnIntersection | app.js:109-124 | the guard afterwards is its old value or some skills entry intersected; the timers scheduled are BatchTimers of the entries in order |
| Animations.GuardAfterIsSticky | app.js:170-171 | the guard, once set, stays set; it is set after a batch iff it was set before or a skills entry intersected |
| Animations.GuardAfterSplit | app.js:109-124 | the guard after two observer batches in a row equals the guard after one batch of all their entries |
| Animations.BatchTimersSplit | app.js:109-124 | two observer batches in a row schedule the first batch's timers followed by the second's, started from the guard the first one leaves, which is what one batch of all their entries schedules |
| Animations.SkillBarsAnimateOnce | app.js:169-179 | over any batch the skill-bar timers are one full schedule if the guard was clear and a skills entry intersected, and none otherwise |
| Animations.ProjectCardsReplay | app.js:183-191 | the card timers are the full cascade repeated once per intersecting projects entry |
| Typing.TypedByBetween | app.js:343-348 | if steps 0..k-1 have run and step k has not, k characters are typed |
| Typing.TypedByAll | app.js:345-349 | once step n-1 has run the whole text is typed |
| Typing.TypedAtStep | app.js:343-348 | at the time of step k, min(k+1, n) characters are typed |
| Typing.TypedByMonotone | app.js:346 | the typed count never decreases as time passes |
| Typing.Typewriter.constructor | app.js:340-343 | the text is captured, the element emptied, and the clock starts at 0 |
| Typing.Typewriter.AdvanceTo | app.js:344-358 | after running the timers due by `now`, the content is the first TypedBy(n, now) characters, a typeWriter timer is pending iff now is before the final step at 2200+50n, and the cursor is shown iff now is before 2200+50n+1000 |
| Typing.TypingTimeline | app.js:337-359 | readings at nondecreasing times are the typed prefixes, and each is a prefix of the next |
| Timing.Throttle.constructor | app.js:363-364 | a new throttle is not throttled |
| Timing.Throttle.RunTimers | app.js:371 | a due reset timer clears inThrottle; otherwise nothing changes |
| Timing.Throttle.Invoke | app.js:365-372 | a call is forwarded iff inThrottle was false; forwarding sets it and schedules its reset at now + limit; a dropped call changes nothing |
| Timing.RunThrottle | app.js:363-374 | driving a fresh throttle with calls at the given times forwards exactly ThrottleTrace |
| Timing.ThrottleFromForwards | app.js:368-371 | on a nondecreasing clock a call is forwarded iff the pending reset is due and every earlier forwarded call is at least `limit` before it |
| Timing.ThrottleForwardsIff | app.js:363-374 | a fresh throttle forwards a call iff no forwarded call lies less than `limit` before it |
| Timing.ThrottleExample | app.js:363-374 | calls at t, t+5, t+50 with limit 40 forward the first and the third only |
| Timing.Debouncer.constructor | app.js:399-400 | a new debouncer has no pending timer |
| Timing.Debouncer.Invoke | app.js:406-407 | a call replaces any pending timer with one at now + wait carrying its arguments |
| Timing.Debouncer.RunTimers | app.js:402-405 | a due timer runs func with its arguments and leaves nothing pending; otherwise nothing happens |
| Timing.RunDebounce | app.js:399-409 | driving a fresh debouncer with the calls, then letting the clock run on, runs func exactly as DebounceTrace says |
| Timing.FiredBeforeIsQuiet | app.js:400-407 | among the calls that have a successor, func runs for exactly those followed by a quiet period |
| Timing.DebounceRunsPerQuietPeriod | app.js:400-407 | func runs at t+wait with call i's arguments iff call i is the last or the next call is wait or more later |
| Timing.FiredBeforeBurst | app.js:400-407 | while every gap is shorter than wait, each call cancels its predecessor's timer before it fires, so func has not run |
| Timing.DebounceBurst | app.js:400-407 | a burst with all gaps shorter than wait runs func once, at the last call's time + wait, with its arguments |
| Timing.DebounceExample | app.js:399-409 | calls at t, t+5, t+10 with wait 20 run func once, at t+30, with the last call's arguments |
| Viewport.IsInViewport | app.js:412-420 | for a well-formed rectangle the four edge tests pass iff its top-left and bottom-right corners both lie in the viewport, with 0 in innerHeight/innerWidth falling back to the client size |
| Viewport.InViewportIffContained | app.js:412-420 | for a well-formed rectangle the four edge tests hold iff every point of it lies in the viewport, with 0 in innerHeight/innerWidth falling back to the client size |
| Viewport.ViewportExample | app.js:414-419 | in a 1024 x 768 window a rectangle inside passes, one sticking out on the right fails, and a zero innerHeight/innerWidth uses the client size |

## Left out

- Style writes (transforms, colours, shadows, backgrounds, opacity) are left out. They are presentation; the model records only which callback is scheduled and with what delay.
- The nav bar's scrolled style is modelled only as the boolean `scrollY + 100 > 100` that `OnScroll` returns.
- IntersectionObserver setup, thresholds and rootMargin are left out, as are the `animate-in` and `visible` classes. An intersecting entry is an input to `OnIntersection`.
- `setupStaggeredAnimations` is left out. It is another observer that only writes styles.
- Parallax is left out. It takes fractional multiples of pixel offsets, which is floating-point geometry.
- `Utils.animateValue` is left out. It uses floating-point progress, `Math.floor` and `requestAnimationFrame`.
- The loader timing, `startHeroAnimations` and `preloadAnimations` are left out. So are the `visibilitychange` handler, the `ticking` frame stub, the hover effects, the custom cursor and the console banner. They are timer or DOM plumbing with no decision to state.
- The debounced `resize` handler (app.js:497-501) is left out, and with it what it breaks. Every resize that settles runs `new PortfolioApp()`, which re-runs `init()` (app.js:7-15) on the same page. That binds a second toggle listener (app.js:86-89), so after one resize a toggle click toggles `active` twice and the menu no longer opens. The new instance starts with `skillBarsAnimated = false` (app.js:166) and a new observer, so the skill bars animate again. The scroll and anchor-click listeners are added again too. `MobileNav` and the one-shot guard in `Animations` describe one `PortfolioApp` with no resize; their properties hold only until the first resize.
- Navigation.OnScroll: assumes `#nav` exists. Without it the handler throws at `nav.style` (app.js:54/57) before its link loop, so no link changes; the model always runs the link loop.
- Timing.Throttle.Invoke: treats `func` as returning normally and not calling back into the throttle. In the source `func.apply` (app.js:369) runs before `inThrottle = true` (app.js:370). A func that throws leaves the throttle open with no reset scheduled, and a re-entrant call made from inside func is also forwarded. The model sets `inThrottle` on every forwarded call.
- Typing.Typewriter.AdvanceTo: late timers are not modelled. Step j is taken to run at exactly 2200 + 50 * j. In the browser each step is scheduled 50 ms after the previous one actually ran, so a busy main thread or a background tab delays every later step, and the page then shows fewer characters than `TypedBy` counts.
- Timing.RunThrottle: late timers are not modelled. A reset (app.js:371) that runs after its due time keeps `inThrottle` set longer, so a call that `ThrottleTrace` forwards can be dropped.
- Timing.RunDebounce: late timers are not modelled. If a call arrives after a timer's due time but before the timer has run, its `clearTimeout` (app.js:406) cancels that timer, so func runs once where `DebounceTrace` fires twice. An example is wait 20 with calls at 0 and 25 while the main thread is busy from 15 to 30.
- Timing.ThrottleTrace: with `limit` 0 a second call at the same time is forwarded, because the clock rule runs the reset timer first. In the source, a call made in the same task as the first one comes before the 0 ms timer and is dropped. The model does not tell calls in the same task apart from later calls at the same time. The same holds with `limit` 0 for `Timing.RunThrottle`.
- Timing.DebounceTrace: with `wait` 0 the model fires each of two calls at the same time. In the source the second call, made in the same task, cancels the first call's 0 ms timer, so only the second call fires. The same holds for `Timing.RunDebounce`.
- `history.pushState` after 100 ms and the `window.scrollTo` calls are not modelled. The model keeps only the computed offset and whether the click was handled.
- SmoothScroll.ScrolledSectionMatches: assumes the scroll lands on the requested offset. `window.scrollTo` (app.js:249-252) stops at `scrollHeight - innerHeight`, and page height is not modelled. Near the bottom of the page the listener can then claim an earlier section and re-mark its link after `updateActiveNavLink` (app.js:262). For example, take sections about [800,2400) and contact [2400,2800) on a 2800-pixel page with innerHeight 900. A click on "#contact" asks for 2320 but reaches only 1900, which the listener assigns to about.
- The mobile-nav close handler and the smooth-scroll handler both listen to nav-link clicks. Their relative order is not modelled; they touch disjoint state.
- Pixel values are whole numbers. `offsetTop` and `offsetHeight` are integers in the browser too, but `scrollY` and the `getBoundingClientRect()` edges are floating-point numbers; their fractional part is not modelled.
- Timing.Throttle.constructor: `limit` is a `nat`. The source passes `limit` to setTimeout, which treats negative delays as 0; that clamping is not modelled.
- Timing.Debouncer.constructor: `wait` is a `nat`, for the same reason.
- Typing.Typewriter.constructor: the element must exist. When `.typing-text` is missing, the source does nothing; there is no object to model then.
- Typing.TypingTimeline: readings are taken at times at or after setup (`times[i] >= 0` on the logical clock).
- The typeWriter step types one UTF-16 code unit per step (`charAt`). Dafny's `char` stands for one character, and surrogate pairs are not modelled.
