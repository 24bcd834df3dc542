# Birthday greeting page: reveal state machines

This project models the interactive logic of a React birthday greeting page. The page is a series of chapters. Each chapter hides a message behind a small state machine:

- the login gate and the page router;
- the opening tap ripples;
- scratch cards behind six orbs;
- polaroids that flip, plus one revealed by shaking the device;
- four poems typed out by a typewriter;
- six wish lanterns released by dragging;
- a drawing canvas that unlocks a timed finale;
- the closing section with sparkles, claps and confetti.

Each source file becomes one Dafny module, named after the component:

- `InteractiveMemories`
- `WishLanterns`
- `PolaroidGallery`
- `PoetrySection`
- `MagicRevealSection`
- `LoginScreen`
- `Home`
- `BirthdayReveal`
- `OpeningSection`

The helper module `Lists` holds sequence facts they share: `Min`, duplicate-freedom, filtering out one value, and the cardinality of sets of ids.

Each component whose `useState`/`useRef` variables are updated by handlers is a class with those variables as fields. Each event handler is a method with a `modifies` clause.

Timers and intervals are explicit methods: `...TimerFires`, `Tick`, `AdvanceTo`. A pending-timer counter in the class records which timers were scheduled. A timer method requires one to be pending, because a timeout fires only after it was set.

Pointer positions, acceleration readings and `Date.now()` timestamps are parameters of the handlers.

The pure rules are functions, and lemmas state their properties over all inputs. The rules covered are:

- the progress steps, the reveal thresholds and the drag offset;
- the spike test, the flip toggle and the password test;
- the screen choice, the sparkle buffer and the finale's phase timeline.

The main results:

- A scratch card reveals on the 21st accepted scratch (progress 42), not on the 20th.
- Drawing progress reaches 100 % on the 200th draw. The completion callback then fires on every later draw as well.
- The shake callback fires on every count from 5 on.
- Flipping a card twice restores which cards are flipped. It does not restore their order when the card was already flipped.
- A typewriter run shows every prefix of its text in increasing order. It then completes exactly once, and the section's count of completed poems stays equal to the number of completed quotes.
- The sparkle list always holds the newest six sparkles, in order.
- The ripple list is a first-in first-out queue of the taps not yet expired.
- The login gate accepts exactly the casings of the secret.
- The router always shows exactly one of its three screens, and it moves only forward: login, then transition, then main.

## Model

| member | source | states |
|---|---|---|
| InteractiveMemories.NextScratchProgress | src/Components/Birthday/InteractiveMemories.jsx:98 | an accepted scratch adds exactly 2 to the progress unless that passes 100, in which case the progress is 100 |
| InteractiveMemories.ScratchProgressAfter | src/Components/Birthday/InteractiveMemories.jsx:97-103 | the progress after n accepted scratches from 0, one step each (a definition) |
| InteractiveMemories.ScratchProgressClosedForm | src/Components/Birthday/InteractiveMemories.jsx:97-103 | after n accepted scratches from zero the progress is min(2n, 100) |
| InteractiveMemories.ScratchProgressMonotone | src/Components/Birthday/InteractiveMemories.jsx:97-103 | progress never decreases as scratches accumulate |
| InteractiveMemories.RevealsOnTwentyFirstScratch | src/Components/Birthday/InteractiveMemories.jsx:98-100 | progress exceeds 40 exactly from the 21st scratch on; after 20 scratches it is 40 (no reveal), after 21 it is 42 |
| InteractiveMemories.ScratchCard.constructor | src/Components/Birthday/InteractiveMemories.jsx:53-57 | a new card has progress 0, is not revealed, has no stroke and anchors at (0, 0) |
| InteractiveMemories.ScratchCard.StartScratch | src/Components/Birthday/InteractiveMemories.jsx:106-112 | on a revealed card nothing changes; otherwise a stroke starts and lastPos is the press point |
| InteractiveMemories.ScratchCard.StopScratch | src/Components/Birthday/InteractiveMemories.jsx:114-116 | the stroke flag is cleared and nothing else changes |
| InteractiveMemories.ScratchCard.Scratch | src/Components/Birthday/InteractiveMemories.jsx:76-104 | on a revealed card or outside a stroke nothing changes and no segment is drawn; otherwise the segment runs from the old lastPos to the new point, lastPos moves there, progress rises by 2 and the card is revealed iff the new progress is above 40; the invariant keeps progress even and at most 42 with revealed iff progress > 40 |
| InteractiveMemories.ScratchCard.CanvasShown | src/Components/Birthday/InteractiveMemories.jsx:201-219 | the scratch canvas and progress bar render iff the card is not revealed (a definition) |
| InteractiveMemories.RecordClosed | src/Components/Birthday/InteractiveMemories.jsx:298-300 | closing keeps the old list as a prefix; the active id is in the result, added only if absent (length +1 iff absent); a duplicate-free list stays duplicate-free; with no active orb the list is unchanged |
| InteractiveMemories.MemoriesSection.constructor | src/Components/Birthday/InteractiveMemories.jsx:238-239 | no orb is active and none is revealed |
| InteractiveMemories.MemoriesSection.HandleOrbClick | src/Components/Birthday/InteractiveMemories.jsx:293-295 | the tapped orb becomes active; the registry is unchanged |
| InteractiveMemories.MemoriesSection.HandleClose | src/Components/Birthday/InteractiveMemories.jsx:297-302 | the registry becomes RecordClosed of the old registry and active orb, scratched or not, and no orb is active afterwards; the registry stays duplicate-free with ids in 1..6 |
| InteractiveMemories.MemoriesSection.AllRevealedMeansEveryOrb | src/Components/Birthday/InteractiveMemories.jsx:354 | the registry never exceeds 6 entries, and the all-revealed message shows iff every orb 1..6 is in it |
| InteractiveMemories.MemoriesSection.AllRevealed | src/Components/Birthday/InteractiveMemories.jsx:354 | the all-revealed message shows iff the registry holds as many ids as there are orbs (a definition) |
| WishLanterns.DragOffset | src/Components/Birthday/WishLanterns.jsx:18-19 | the offset is minus the upward displacement, never above 100 upward and unbounded downward; it is below -50 iff the displacement exceeds 50 |
| WishLanterns.ReleaseBoundary | src/Components/Birthday/WishLanterns.jsx:25-29 | an upward drag of exactly 50 does not release the lantern; one of 51 does |
| WishLanterns.ReleasesAt | src/Components/Birthday/WishLanterns.jsx:25 | an offset releases iff it is strictly below -50 (a definition) |
| WishLanterns.Lantern.constructor | src/Components/Birthday/WishLanterns.jsx:5-7 | a new lantern is not dragging, at offset 0, with startY 0 |
| WishLanterns.Lantern.HandleDragStart | src/Components/Birthday/WishLanterns.jsx:9-13 | a released lantern ignores it; otherwise dragging starts from the pointer's y |
| WishLanterns.Lantern.HandleDrag | src/Components/Birthday/WishLanterns.jsx:15-20 | ignored unless dragging an unreleased lantern; otherwise the offset becomes DragOffset(startY, pointer y) |
| WishLanterns.Lantern.HandleDragEnd | src/Components/Birthday/WishLanterns.jsx:22-30 | a released lantern ignores it; otherwise dragging stops, onRelease is called iff the offset is below -50, and without a release the offset returns to 0 |
| WishLanterns.LanternSection.constructor | src/Components/Birthday/WishLanterns.jsx:127 | no lantern is released |
| WishLanterns.LanternSection.HandleRelease | src/Components/Birthday/WishLanterns.jsx:138-140 | the id is appended without a membership check: the count grows by one every call, the id is then released and every lantern released before stays released |
| WishLanterns.LanternSection.IsReleased | src/Components/Birthday/WishLanterns.jsx:196 | a lantern is released iff its id is in the list (a definition) |
| WishLanterns.LanternSection.ReleasedCount | src/Components/Birthday/WishLanterns.jsx:184 | the counter is the list's length (a definition) |
| WishLanterns.LanternSection.AllReleased | src/Components/Birthday/WishLanterns.jsx:205 | the all-released message shows iff the list's length equals the number of wishes (a definition) |
| PolaroidGallery.ReadingOf | src/Components/Birthday/PolaroidGallery.jsx:61 | a missing acceleration reading counts as (0, 0, 0) |
| PolaroidGallery.Jolt | src/Components/Birthday/PolaroidGallery.jsx:62-64 | the summed absolute axis differences: never negative, zero iff the samples are equal, at least each single axis difference |
| PolaroidGallery.SpikeFacts | src/Components/Birthday/PolaroidGallery.jsx:62-66 | the spike test is symmetric in the two samples, an unchanged reading is never a spike, and a jump above 30 on one axis always is |
| PolaroidGallery.IsSpike | src/Components/Birthday/PolaroidGallery.jsx:66 | a sample is a spike iff its jolt against the previous sample is strictly above 30 (a definition) |
| PolaroidGallery.FiresOnShake | src/Components/Birthday/PolaroidGallery.jsx:70 | an increment that brings the count to newCount calls onShake iff newCount >= 5 (a definition) |
| PolaroidGallery.FiringsAfter | src/Components/Birthday/PolaroidGallery.jsx:68-74 | the onShake decisions of n counted shakes in a row from a given count, one entry per shake |
| PolaroidGallery.NthShakeFires | src/Components/Birthday/PolaroidGallery.jsx:68-74 | shake k of a run (from 0) calls onShake iff it brings the count to 5 or more |
| PolaroidGallery.FiringsAfterSnoc | src/Components/Birthday/PolaroidGallery.jsx:68-74 | one more shake extends the run of decisions by that shake's own decision |
| PolaroidGallery.ShakeToReveal.constructor | src/Components/Birthday/PolaroidGallery.jsx:55-57 | no shakes, previous sample (0, 0, 0), not shaking |
| PolaroidGallery.ShakeToReveal.HandleMotion | src/Components/Birthday/PolaroidGallery.jsx:60-79 | a spike (jolt > 30) adds exactly one shake, sets isShaking, schedules one clearing timer and calls onShake iff the new count is 5 or more, recording that decision; any other sample changes no counter; the sample always becomes the previous one |
| PolaroidGallery.ShakeToReveal.HandleClick | src/Components/Birthday/PolaroidGallery.jsx:86-96 | a tap adds exactly one shake, sets isShaking, schedules one clearing timer and calls onShake iff the new count is 5 or more, recording that decision |
| PolaroidGallery.ShakeToReveal.ShakeTimerFires | src/Components/Birthday/PolaroidGallery.jsx:75 | a 200 ms timer clears isShaking and leaves the count alone |
| PolaroidGallery.ShakeToReveal.OnShakeFromFifth | src/Components/Birthday/PolaroidGallery.jsx:68-94 | over the widget's life, starting from the constructor, the k-th counted shake (spike or tap, counting from 1) called onShake iff k >= 5: the first four never, every later one always |
| PolaroidGallery.ShakeToReveal.DotFilled | src/Components/Birthday/PolaroidGallery.jsx:120-123 | dot i is filled iff i < shakeCount (a definition) |
| PolaroidGallery.Toggle | src/Components/Birthday/PolaroidGallery.jsx:192-196 | the id is in the result iff it was not in the list; other ids keep their membership; a duplicate-free list stays duplicate-free and its length moves by exactly one |
| PolaroidGallery.ToggleTwiceFromAbsent | src/Components/Birthday/PolaroidGallery.jsx:192-196 | flipping an unflipped card twice restores the list exactly |
| PolaroidGallery.ToggleTwiceRestoresMembership | src/Components/Birthday/PolaroidGallery.jsx:192-196 | on a duplicate-free list, flipping any card twice restores every card's membership and the list's length |
| PolaroidGallery.ToggleTwiceReordersPresent | src/Components/Birthday/PolaroidGallery.jsx:194 | flipping an already flipped card twice moves it to the end: [1, 2] becomes [2, 1] |
| PolaroidGallery.CardOf | src/Components/Birthday/PolaroidGallery.jsx:140-185 | counter positions 1..5 are the photos with those ids and 6 is the hidden polaroid |
| PolaroidGallery.ShownCard | src/Components/Birthday/PolaroidGallery.jsx:232-246 | photos 1..5 are always on display, the hidden polaroid only once revealed (a definition) |
| Lists.RemoveAll | src/Components/Birthday/PolaroidGallery.jsx:194 | the filter drops every occurrence of the id and keeps every other element, never growing the list |
| PolaroidGallery.Gallery.constructor | src/Components/Birthday/PolaroidGallery.jsx:136-137 | nothing flipped, the hidden polaroid not revealed |
| PolaroidGallery.Gallery.HandleFlip | src/Components/Birthday/PolaroidGallery.jsx:192-196 | the flipped list becomes Toggle of it; it stays duplicate-free and holds only cards on display |
| PolaroidGallery.Gallery.RevealHidden | src/Components/Birthday/PolaroidGallery.jsx:232-233 | onShake reveals the hidden polaroid, which replaces the shake widget; flips are kept |
| PolaroidGallery.Gallery.ShakeWidgetShown | src/Components/Birthday/PolaroidGallery.jsx:232-233 | the shake widget shows iff the hidden polaroid is not revealed (a definition) |
| PolaroidGallery.Gallery.CounterTotal | src/Components/Birthday/PolaroidGallery.jsx:257 | the counter's total is 6 once the hidden polaroid is revealed, else 5 (a definition) |
| PolaroidGallery.Gallery.CounterWithinTotal | src/Components/Birthday/PolaroidGallery.jsx:257 | the count shown never exceeds its total (6 once the hidden polaroid shows, else 5) and equals it iff every card on display is flipped |
| PoetrySection.FullText | src/Components/Birthday/PoetrySection.jsx:10 | the typed text is the poem's line, one space, then its second line |
| PoetrySection.TypewriterQuote.constructor | src/Components/Birthday/PoetrySection.jsx:7-10 | nothing displayed, not typing, not completed |
| PoetrySection.TypewriterQuote.StartTyping | src/Components/Birthday/PoetrySection.jsx:12-15 | a no-op while typing or once completed; otherwise typing starts with the counter at 0 |
| PoetrySection.TypewriterQuote.Tick | src/Components/Birthday/PoetrySection.jsx:16-26 | while the counter i is at most the text's length the tick shows its first i characters and advances i; the next tick stops typing, marks the quote completed with the whole text shown, and reports the one completion |
| PoetrySection.TypewriterQuote.RunInterval | src/Components/Birthday/PoetrySection.jsx:12-27 | the interval ends completed with the whole text shown after len + 2 ticks from a fresh start, calling onComplete exactly once; every value shown was the prefix of its index's length, in increasing order |
| PoetrySection.TypewriterQuote.CaretShown | src/Components/Birthday/PoetrySection.jsx:64 | the caret shows iff the quote is typing (a definition) |
| PoetrySection.TypewriterQuote.PlaceholderShown | src/Components/Birthday/PoetrySection.jsx:52 | the tap placeholder shows iff the quote is neither typing nor completed (a definition) |
| PoetrySection.Poems.constructor | src/Components/Birthday/PoetrySection.jsx:107 | four fresh quotes and a count of 0 |
| PoetrySection.Poems.TapQuote | src/Components/Birthday/PoetrySection.jsx:12-15 | tapping a typing or completed quote changes nothing; tapping a fresh one starts it typing from counter 0; the completed count is unchanged and stays consistent |
| PoetrySection.Poems.TickQuote | src/Components/Birthday/PoetrySection.jsx:16-26 | a tick of quote i finishes it iff its counter had passed the text's length; a non-final tick keeps it typing, shows the prefix of the old counter's length and advances the counter; the final tick shows the whole text, stops typing and adds one to completedCount, so the count always equals the number of completed quotes |
| PoetrySection.Poems.CountBounded | src/Components/Birthday/PoetrySection.jsx:159-179 | the count never exceeds 4, and the final message shows iff every quote has completed |
| PoetrySection.Poems.BarLit | src/Components/Birthday/PoetrySection.jsx:158-159 | progress bar i is lit iff i < completedCount (a definition) |
| PoetrySection.Poems.AllCompleted | src/Components/Birthday/PoetrySection.jsx:179 | the final message shows iff completedCount equals the number of poems (a definition) |
| MagicRevealSection.NextDrawProgress | src/Components/Birthday/MagicRevealSection.jsx:43 | an accepted draw adds half a percent, stopping at 100 % |
| MagicRevealSection.HueHalfDegrees | src/Components/Birthday/MagicRevealSection.jsx:37 | the stroke hue lies in [0, 360) degrees and is congruent to 3 * progress modulo 360 |
| MagicRevealSection.CompletesAt | src/Components/Birthday/MagicRevealSection.jsx:44 | a draw calls onComplete iff its new progress is 100 % or more (a definition) |
| MagicRevealSection.DrawProgressAfter | src/Components/Birthday/MagicRevealSection.jsx:42-46 | the progress after n accepted draws from 0, one step each (a definition) |
| MagicRevealSection.DrawProgressClosedForm | src/Components/Birthday/MagicRevealSection.jsx:42-46 | after n accepted draws the progress is min(n, 200) half-percent units: 100 % on the 200th draw |
| MagicRevealSection.CompletionFiresFrom200 | src/Components/Birthday/MagicRevealSection.jsx:44 | the completion callback fires on draw n iff n >= 200: first on the 200th and again on every later draw |
| MagicRevealSection.DrawingCanvas.constructor | src/Components/Birthday/MagicRevealSection.jsx:9-11 | not drawing, no progress, no strokes |
| MagicRevealSection.DrawingCanvas.Draw | src/Components/Birthday/MagicRevealSection.jsx:28-47 | outside a stroke nothing changes and nothing fires; otherwise the hue comes from the progress before the draw, the progress steps and onComplete is called iff it is at 100 %; progress never decreases |
| MagicRevealSection.DrawingCanvas.StartDrawing | src/Components/Birthday/MagicRevealSection.jsx:49-59 | a stroke starts and the stroke count grows by exactly one |
| MagicRevealSection.DrawingCanvas.StopDrawing | src/Components/Birthday/MagicRevealSection.jsx:61-63 | the stroke ends; progress and count are kept |
| MagicRevealSection.PhaseAt | src/Components/Birthday/MagicRevealSection.jsx:129-133 | the phase is at most 3, 0 exactly before 200 ms and 3 exactly from 1500 ms |
| MagicRevealSection.PhaseMonotone | src/Components/Birthday/MagicRevealSection.jsx:130-132 | the phase never goes back as time passes |
| MagicRevealSection.GrandExplosion.constructor | src/Components/Birthday/MagicRevealSection.jsx:119 | phase 0 at time 0, timers running, no completion |
| MagicRevealSection.GrandExplosion.AdvanceTo | src/Components/Birthday/MagicRevealSection.jsx:129-134 | while the timers run, the phase is PhaseAt of the elapsed time and the final onComplete fires exactly once, when 4500 ms is first reached; after teardown nothing changes |
| MagicRevealSection.GrandExplosion.Teardown | src/Components/Birthday/MagicRevealSection.jsx:135 | teardown clears every timer; phase and completions are kept |
| MagicRevealSection.RevealSection.constructor | src/Components/Birthday/MagicRevealSection.jsx:308-309 | the drawing is not complete and no explosion shows |
| MagicRevealSection.RevealSection.HandleDrawingComplete | src/Components/Birthday/MagicRevealSection.jsx:311-314 | the drawing is complete, the canvas is gone, and one more 500 ms explosion timer is pending on each call |
| MagicRevealSection.RevealSection.ExplosionTimerFires | src/Components/Birthday/MagicRevealSection.jsx:313 | the explosion shows and the unlocked message is hidden |
| MagicRevealSection.RevealSection.ExplosionFinished | src/Components/Birthday/MagicRevealSection.jsx:368-371 | the explosion is hidden, the parent's onComplete is called once, and the unlocked message shows again |
| MagicRevealSection.RevealSection.CanvasShown | src/Components/Birthday/MagicRevealSection.jsx:337 | the canvas renders iff the drawing is not complete (a definition) |
| MagicRevealSection.RevealSection.UnlockedShown | src/Components/Birthday/MagicRevealSection.jsx:348 | the unlocked message renders iff the drawing is complete and no explosion shows (a definition) |
| LoginScreen.LowerChar | src/Components/Birthday/LoginScreen.jsx:13 | ASCII capitals map to the matching small letter and every other character is kept; the result is never a capital |
| LoginScreen.Lower | src/Components/Birthday/LoginScreen.jsx:13 | lower-casing keeps the length and lowers each character |
| LoginScreen.Accepts | src/Components/Birthday/LoginScreen.jsx:13 | the gate accepts iff the lower-cased password equals "garfield9" (a definition) |
| LoginScreen.LowerIdempotent | src/Components/Birthday/LoginScreen.jsx:13 | lower-casing twice is lower-casing once |
| LoginScreen.AcceptsAnyCasing | src/Components/Birthday/LoginScreen.jsx:13 | a password is accepted iff it has 9 characters, each the secret's character in either case |
| LoginScreen.AcceptsExamples | src/Components/Birthday/LoginScreen.jsx:13 | "GARFIELD9" is accepted and "garfield" is not |
| LoginScreen.LoginForm.InputType | src/Components/Birthday/LoginScreen.jsx:150 | the input type is "text" iff the password is shown |
| LoginScreen.LoginForm.ErrorShown | src/Components/Birthday/LoginScreen.jsx:154-165 | the red border and the error message show iff error holds (a definition) |
| LoginScreen.LoginForm.constructor | src/Components/Birthday/LoginScreen.jsx:6-9 | empty password, hidden, no error, no shake |
| LoginScreen.LoginForm.SetPassword | src/Components/Birthday/LoginScreen.jsx:152 | typing replaces the password and nothing else |
| LoginScreen.LoginForm.HandleSubmit | src/Components/Birthday/LoginScreen.jsx:11-21 | onSuccess is called iff the lower-cased password is the secret, and then nothing changes; otherwise error and shake are raised and one timer for each is scheduled |
| LoginScreen.LoginForm.ShakeTimerFires | src/Components/Birthday/LoginScreen.jsx:18 | the 500 ms timer clears shake only |
| LoginScreen.LoginForm.ErrorTimerFires | src/Components/Birthday/LoginScreen.jsx:19 | the 2000 ms timer clears error only |
| LoginScreen.LoginForm.ToggleShowPassword | src/Components/Birthday/LoginScreen.jsx:158 | the eye button negates showPassword and changes nothing else |
| Home.ScreenFor | src/Pages/Home.jsx:21-114 | the screen shown is login iff the login condition holds, transition iff showTransition, main iff the main condition holds |
| Home.RendersLogin | src/Pages/Home.jsx:21 | the login branch renders iff neither authenticated nor in transition (a definition) |
| Home.RendersTransition | src/Pages/Home.jsx:25 | the transition renders iff showTransition (a definition) |
| Home.RendersMain | src/Pages/Home.jsx:114 | the main experience renders iff authenticated and not in transition (a definition) |
| Home.ExactlyOneScreen | src/Pages/Home.jsx:21-114 | in each of the four flag combinations exactly one of the three branches renders |
| Home.HomePage.constructor | src/Pages/Home.jsx:7-8 | not authenticated, no transition: the login screen |
| Home.HomePage.HandleSuccessfulLogin | src/Pages/Home.jsx:10-12 | from the login screen the transition shows at once and its timer is scheduled; the screen moves forward |
| Home.HomePage.TransitionTimerFires | src/Pages/Home.jsx:12-15 | the 2500 ms timer authenticates and hides the transition: the main screen shows, a step forward |
| Home.MainIsFinal | src/Pages/Home.jsx:7-16 | on the main screen the page is authenticated and no timer is pending, and no handler resets isAuthenticated |
| BirthdayReveal.LastN | src/Components/Birthday/BirthdayReveal.jsx:47 | slice(-k) is the suffix of length min(k, n) |
| BirthdayReveal.AddSparkle | src/Components/Birthday/BirthdayReveal.jsx:47 | the new list is the old list's last min(5, n), in order, followed by the new sparkle, so it never holds more than 6 |
| BirthdayReveal.SparklesAfter | src/Components/Birthday/BirthdayReveal.jsx:47 | the sparkle list after a run of interactions from the empty list, one AddSparkle each (a definition) |
| BirthdayReveal.AddSparkleKeepsLastSix | src/Components/Birthday/BirthdayReveal.jsx:47 | one interaction on the newest six of a history gives the newest six of the extended history |
| BirthdayReveal.SparklesAfterIsLastSix | src/Components/Birthday/BirthdayReveal.jsx:47 | after any run of interactions the list is exactly the newest min(n, 6) sparkles, in order |
| BirthdayReveal.InteractiveWish.constructor | src/Components/Birthday/BirthdayReveal.jsx:40 | no sparkles |
| BirthdayReveal.InteractiveWish.HandleInteraction | src/Components/Birthday/BirthdayReveal.jsx:42-48 | the list becomes AddSparkle of the old list and the sparkle at the pointer relative to the box, and stays the newest six of all sparkles made |
| BirthdayReveal.EmojiCount | src/Components/Birthday/BirthdayReveal.jsx:104 | the flying emojis number min(clapCount, 20) |
| BirthdayReveal.ClapNoun | src/Components/Birthday/BirthdayReveal.jsx:256 | the message says "claps" iff more than one clap was sent |
| BirthdayReveal.ClapMessageShown | src/Components/Birthday/BirthdayReveal.jsx:250 | the clap message shows iff clapCount > 0 (a definition) |
| BirthdayReveal.RevealSection.constructor | src/Components/Birthday/BirthdayReveal.jsx:127-129 | confetti shows, no claps, not yet in view |
| BirthdayReveal.RevealSection.Clap | src/Components/Birthday/BirthdayReveal.jsx:247-250 | a clap adds exactly one, and the clap message then shows |
| BirthdayReveal.RevealSection.EnterView | src/Components/Birthday/BirthdayReveal.jsx:131-134 | the first time in view schedules the 10 s timer; later times change nothing |
| BirthdayReveal.RevealSection.ConfettiTimerFires | src/Components/Birthday/BirthdayReveal.jsx:133 | the timer stops the confetti; confetti only ever stops after the section came into view |
| BirthdayReveal.RevealSection.Teardown | src/Components/Birthday/BirthdayReveal.jsx:134 | cleanup clears the pending timer and keeps the confetti state |
| BirthdayReveal.Layout | src/Components/Birthday/BirthdayReveal.jsx:225-235 | one row per line: a spacer iff the line is empty, otherwise a wish with that line's text |
| BirthdayReveal.LayoutKeepsEveryWish | src/Components/Birthday/BirthdayReveal.jsx:225-235 | the wishes shown are exactly the non-empty lines, in order |
| OpeningSection.DropFront | src/Components/Birthday/OpeningSection.jsx:17 | slice(1) drops the front element, and leaves an empty list empty |
| OpeningSection.DropFrontTimesIsSuffix | src/Components/Birthday/OpeningSection.jsx:13-17 | n removals leave the list after its first n elements (nothing if there are fewer) |
| OpeningSection.RippleCorner | src/Components/Birthday/OpeningSection.jsx:34 | a ripple's box starts 40 left of and 40 above the tap, so it is centred on it |
| OpeningSection.Opening.constructor | src/Components/Birthday/OpeningSection.jsx:5-6 | not tapped, no ripples |
| OpeningSection.Opening.HandleTap | src/Components/Birthday/OpeningSection.jsx:8-19 | a tap appends exactly one ripple at the tap relative to the box, sets tapped (hiding the hint, showing the scroll indicator) and schedules one removal |
| OpeningSection.Opening.RemovalTimerFires | src/Components/Birthday/OpeningSection.jsx:16-18 | a 1000 ms timer removes the front ripple, which is the oldest tap still shown |
| OpeningSection.Opening.TapHintVisible | src/Components/Birthday/OpeningSection.jsx:100 | the TAP hint is visible iff not yet tapped (a definition) |
| OpeningSection.Opening.ScrollIndicatorVisible | src/Components/Birthday/OpeningSection.jsx:116 | the scroll indicator is visible iff tapped (a definition) |
| OpeningSection.Opening.QueueState | src/Components/Birthday/OpeningSection.jsx:13-17 | the ripples shown are the taps after the removed ones, oldest first, and once every timer has fired the list is empty |

## Left out

- Canvas drawing calls (clearing a segment, stroking a line, the gradient fill) are foreign pixel operations. The model records the segment and the hue instead.
- `getPos` coordinate scaling and the `clientY || touches[0].clientY` fallback are not modelled. Positions are given as already computed; a clientY of 0 falling back to the touch reading is not represented.
- The `canvasRef.current` null check in `scratch` is not modelled: the canvas is mounted whenever that handler can run.
- Every `Math.random` cosmetic is not modelled: lantern x-jitter (`WishLanterns.Lantern` tracks only the vertical offset), polaroid tilt, confetti, petals, stars and the emoji choice.
- `Date.now()` ids are parameters; their collisions are not modelled.
- Framer-motion animation, springs, `useInView`/`useScroll` (`EnterView` stands for the first time in view) and styling are library behaviour.
- Hover state (`isHovered` in the wish lines) only changes a text shadow and is not modelled.
- The wish lines' text is not reproduced; `BirthdayReveal.Layout` takes the lines as input.
- React batching and stale closures are runtime concurrency and are not modelled. Examples:
  - two taps before a re-render could start two typewriter intervals;
  - a handler reads `revealed`, `progress` or `lastAccel` from the last render.

  Each handler sees the latest state.
- The explosion's effect depends on an inline `onComplete`. A re-render of the parent would restart its timers. `MagicRevealSection.GrandExplosion` models one uninterrupted run.
- Real timers are explicit methods: `AdvanceTo` drives the finale's timeline, and the other timers are `...TimerFires` methods.
  - The relative order of timers with different delays is left to the caller, except for the ripples: their equal delays make the removals first-in first-out.
  - The `devicemotion` subscription is `HandleMotion` called once per sample.
- `LoginScreen.Lower`: lower-casing covers ASCII letters only; Unicode case mapping is not modelled.
- `PoetrySection.Poems.TapQuote`: the four quotes' own invariants are required and ensured per call, not kept inside the section's invariant.
- ParticleBackground.jsx, ButterFlyCanvas.jsx, MusicToggle.jsx and MainExperience.jsx are not part of this model: they are decoration, a single audio-less toggle and layout composition.
- `Home.HomePage.HandleSuccessfulLogin`: a second successful submit while the login screen is still mounted for its exit animation is not modelled; it would schedule a second 2500 ms timer that ends in the same state. The method requires the login screen, and `Valid` allows one pending timer.
- `PoetrySection.FullText`: lengths and prefixes count characters, whereas the source's `length` and `slice` count UTF-16 code units. The two agree on the four ASCII poems.
