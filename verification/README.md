# WaveLab: a Dafny model of the wave lab's state and arithmetic

WaveLab is a browser lab about travelling waves. It draws a sine wave
`y = A·sin(k·x − ω·t)`, and the student can pick points on it to measure
distances. The student then types a wavelength guess, which is graded against
`λ = v / f`. The lab also has a chat assistant and a Unity script generator,
both backed by a language model.

This project models the deterministic parts of the lab as pure functions over
immutable records, plus one imperative loop. Each file follows one source
file:

- `types.dfy` (`Types`): the `WaveParams`, `MeasurementPoint` and
  `ChatMessage` records (types.ts), plus `Option`, `Abs` and `Max`.
- `app.dfy` (`App`): the session's parameters and markers. It covers the pick
  handler, which keeps at most two markers and restarts with a single marker
  on the third pick. It also covers the clear and reset handlers, and
  whole-session event traces.
- `controls.dfy` (`Controls`): the slider handler, which overwrites one field;
  the play/pause toggle; and the slider ranges, which keep frequency and speed
  positive.
- `calculator.dfy` (`Calculator`): the reference wavelength and the marker
  distance. It also models the three-state verdict: a strict 5 % tolerance,
  no change on an unparseable guess, and a reset to idle on any edit.
- `wave_scene.dfy` (`WaveScene`): one animation frame. This covers the
  clamped wavelength, `k` and `ω`, and the effective time (zero while
  paused). A `method` with a loop writes 1000 `(x, y, 0)` triples into the
  flat position buffer.
- `assistant.dfy` (`Assistant`): the chat panel. It includes ECMAScript's
  `trim`, the guarded send, the reply, the send button's enable condition,
  and the append-only log.
- `gemini_service.dfy` (`GeminiService`): removal of the markdown code fences
  from a generated script.

External inputs are parameters:

- the picked point;
- the render clock's elapsed time;
- the sine function (only `−1 ≤ sin ≤ 1` is assumed of it);
- the browser's number parser (`string -> Option<real>`, where `None` stands
  for NaN);
- the text returned by the language model.

Two behaviours are easy to misread:

- **Pausing.** While paused, the frame handler uses `t = 0` instead of
  the clock (WaveScene.tsx:32, 56). The paused view is therefore the
  phase-zero snapshot, not the wave frozen where it was. The code's own
  comment (WaveScene.tsx:33-34) notes that accumulating time by hand would
  be needed for a true pause/resume. `WaveScene.EffectiveTime` and
  `WaveScene.PausedFrameIsPhaseZero` state this behaviour.
- **Reset.** The reset handler (App.tsx:20-28) restores the parameters and
  empties the markers, and nothing else. The typed guess and the verdict
  are local state of the notebook component
  (components/Calculator.tsx:12-13), so reset leaves them alone.

## Model

| member | source | states |
|---|---|---|
| App.Initial | App.tsx:11-18 | The session starts with frequency 1.0, amplitude 1.0, speed 2.0, running, and no markers; these defaults lie inside every slider range |
| App.Measure | App.tsx:30-36 | With fewer than two markers a pick appends the point at the end; with two it yields exactly `[point]`; the parameters never change; the new point is always last; at most two markers remain |
| App.ClearMarkers | App.tsx:69 | Clearing empties the marker list and leaves the parameters unchanged |
| App.Reset | App.tsx:20-28 | Reset restores the default parameters and empties the markers, i.e. returns the initial session whatever the state before |
| App.ResetIdempotent | App.tsx:20-28 | Resetting twice is the same as resetting once |
| App.MarkersBounded | App.tsx:20-36 | Under any sequence of picks, clears, resets, slider moves and toggles the session never holds more than two markers |
| App.ParamsStayValid | components/Controls.tsx:55-97 | Any event sequence whose slider values come from the slider ranges keeps every parameter in range, so frequency and speed stay strictly positive |
| App.PickTrace | App.tsx:30-36 | Picks at x = 1, 3, 5 from no markers give one marker, then exactly the two picks, then exactly the pick at 5 |
| Controls.HandleChange | components/Controls.tsx:12-14 | The chosen field takes the new value, the other two numeric fields and `isRunning` are unchanged |
| Controls.HandleChangeUndo | components/Controls.tsx:12-14 | Writing a field's old value back undoes a change |
| Controls.TogglePlay | components/Controls.tsx:25 | Play/pause negates `isRunning` and leaves frequency, amplitude and speed unchanged |
| Controls.TogglePlayTwice | components/Controls.tsx:25 | Toggling twice restores the original parameters |
| Controls.SliderRange | components/Controls.tsx:55-95 | Frequency [0.1, 5.0] step 0.1, amplitude [0.1, 3.0] step 0.1, speed [1.0, 10.0] step 0.5: each range starts above zero, is non-empty, and its maximum is a whole number of steps above its minimum |
| Controls.ValidParamsPositive | components/Controls.tsx:55-95 | Parameters inside the slider ranges have frequency ≥ 0.1 and speed ≥ 1, hence both strictly positive |
| Controls.SliderKeepsValid | components/Controls.tsx:59 | A slider update with a value from that slider's range keeps all parameters in range |
| Controls.ToggleKeepsValid | components/Controls.tsx:25 | Play/pause keeps all parameters in range |
| Calculator.ActualLambda | components/Calculator.tsx:15 | The unclamped reference wavelength times the frequency is the speed; it is positive for positive speed and frequency |
| Calculator.InitialCalc | components/Calculator.tsx:12-13 | The notebook starts with an empty guess and an idle verdict |
| Calculator.MeasuredDistance | components/Calculator.tsx:16-18 | The distance is non-negative, zero unless exactly two markers are held, and otherwise the difference of the two x coordinates in one order or the other |
| Calculator.MeasuredDistanceSymmetric | components/Calculator.tsx:16-18 | The distance does not depend on marker order |
| Calculator.MeasuredDistanceIgnoresYZ | components/Calculator.tsx:16-18 | The distance depends only on the x coordinates |
| Calculator.Grade | components/Calculator.tsx:24-30 | A graded guess is never idle; for a positive wavelength it is correct exactly when, in exact arithmetic, it lies strictly between 95 % and 105 % of the wavelength |
| Calculator.GradeBoundary | components/Calculator.tsx:25-26 | In exact arithmetic, a guess exactly 5 % above or below is incorrect, and any guess strictly closer is correct |
| Calculator.CheckAnswer | components/Calculator.tsx:20-31 | An unparseable guess changes nothing; a parsed one keeps the typed text and sets a non-idle verdict computed from the current parameters |
| Calculator.EditGuess | components/Calculator.tsx:79-82 | Any edit stores the new text and sets the verdict to idle, whatever it was |
| Calculator.EditThenCheck | components/Calculator.tsx:79-82 | No verdict survives an edit: checking after an edit equals checking the text fresh, and an unparseable text then stays idle |
| Calculator.GradeExample | components/Calculator.tsx:15-30 | With f = 1, v = 2: λ = 2, the guess 2.05 is correct, 1.5 is incorrect, and "abc" leaves the state as it was |
| Calculator.FreshNotebookCheck | components/Calculator.tsx:12-31 | On a fresh notebook, checking the empty field leaves the verdict idle exactly when the empty text does not parse; after typing, an unparseable text leaves it idle and a parsed one always gets a verdict |
| WaveScene.SceneLambda | WaveScene.tsx:46 | The scene's wavelength times max(0.1, f) is the speed; it is positive for positive speed and non-zero for non-zero speed |
| WaveScene.WaveNumber | WaveScene.tsx:47 | k times the scene's wavelength is 2π |
| WaveScene.AngularFrequency | WaveScene.tsx:48 | ω / 2π is the frequency; ω is positive for positive frequency |
| WaveScene.EffectiveTime | WaveScene.tsx:56 | The wave is evaluated at the clock while running and at 0 while paused |
| WaveScene.GridX | WaveScene.tsx:60 | Every x coordinate lies in [−10, 10) |
| WaveScene.GridSpacing | WaveScene.tsx:58-60 | The grid starts at −10, has constant spacing 0.02 and is strictly increasing |
| WaveScene.SampleYBounded | WaveScene.tsx:63 | If sin stays within [−1, 1], every height has magnitude at most the amplitude's |
| WaveScene.FrameUnique | WaveScene.tsx:65-67 | The (x, y, 0)-triple layout fixes every one of the 3000 slots: two buffers that both hold the frame at time t are equal |
| WaveScene.Frame | WaveScene.tsx:29-71 | With no mesh nothing is written; otherwise the result is 3000 slots holding, for each i, x_i at slot 3i, the height at the effective time at 3i+1 and 0 at 3i+2, whatever the buffer held before |
| WaveScene.PausedFrameIsPhaseZero | WaveScene.tsx:56 | While paused, a frame drawn at any clock value is the frame at t = 0, and frames drawn at two different clock values are identical |
| WaveScene.SceneLambdaMatchesReference | WaveScene.tsx:46 | For frequency ≥ 0.1, which the slider guarantees, the clamped scene wavelength satisfies λ·f = v, like the notebook's unclamped one |
| Assistant.TrimStart | components/Assistant.tsx:25 | Leading-whitespace removal yields a suffix that is empty or starts with a non-whitespace character, and all removed characters are whitespace |
| Assistant.TrimEnd | components/Assistant.tsx:25 | Trailing-whitespace removal yields a prefix that is empty or ends with a non-whitespace character, and all removed characters are whitespace |
| Assistant.Trim | components/Assistant.tsx:25 | The trimmed text is a slice of the input with only whitespace cut from either side, and it neither starts nor ends with whitespace |
| Assistant.TrimEmptyIffBlank | components/Assistant.tsx:25 | The trimmed input is empty exactly when every character is whitespace |
| Assistant.InitialChat | components/Assistant.tsx:11-15 | The log starts as exactly one model greeting, with empty input and nothing in flight |
| Assistant.SetInput | components/Assistant.tsx:79 | Typing replaces the input and leaves the log and the in-flight flag unchanged |
| Assistant.SendEnabled | components/Assistant.tsx:86 | The send button is enabled exactly when nothing is in flight and the input is not all whitespace |
| Assistant.Send | components/Assistant.tsx:24-30 | Blank input or a request in flight makes send a no-op; otherwise exactly one user message carrying the untrimmed input is appended, the input is cleared and a request is in flight |
| Assistant.Reply | components/Assistant.tsx:34-35 | The reply appends exactly one model message carrying the returned text and clears the in-flight flag, leaving the input alone |
| Assistant.SendEnabledMatchesGuard | components/Assistant.tsx:86 | The send button is enabled if and only if sending would change the panel |
| Assistant.LogAppendOnly | components/Assistant.tsx:28-34 | After any sequence of typing, sends and replies, the earlier log is a prefix of the later one |
| Assistant.GreetingStaysFirst | components/Assistant.tsx:11-13 | From the initial panel, the greeting remains the first message forever |
| GeminiService.StripPrefix | services/geminiService.ts:65 | An anchored-at-start pattern is removed once if present (text = prefix + result), otherwise the text is unchanged |
| GeminiService.StripSuffix | services/geminiService.ts:65 | An anchored-at-end pattern is removed once if it ends the text (text = result + suffix), otherwise the text is unchanged |
| GeminiService.CleanCode | services/geminiService.ts:64-65 | A missing or empty response gives the empty script; the script is never longer than the response |
| GeminiService.CleanCodeIsSlice | services/geminiService.ts:65 | The cleaned script is a contiguous slice of the response text |
| GeminiService.CleanCodeWithoutFences | services/geminiService.ts:65 | Text without any of the three fences is returned unchanged |
| GeminiService.CleanCodeUnwrapsCSharp | services/geminiService.ts:65 | A body wrapped in a C# fence and a closing fence comes back as the body, unless it then starts with a plain fence |
| GeminiService.CleanCodeChainsFences | services/geminiService.ts:65 | A plain fence exposed by removing the C# fence is removed too, because the replacements are chained |
| GeminiService.CSharpFenceRemovedOnce | services/geminiService.ts:65 | Only one leading C# fence is removed |
| GeminiService.ClosingFenceOnlyAtEnd | services/geminiService.ts:65 | For every text, the last step returns what the opening-fence steps left unchanged unless it ends with a closing fence, which is then dropped once |
| GeminiService.ClosingFenceExample | services/geminiService.ts:65 | "x\n```\ny" is kept whole (its closing fence is not at the end), while "x\n```" becomes "x" |

## Left out

- Rendering: the three.js scene, camera, grid, lights, marker spheres and labels, and all component markup (WaveScene.tsx:73-172 and the JSX of every component). It is presentation with no stated behaviour.
- Raycasting and pick events (WaveScene.tsx:145-155): the picked point is an input to `App.Measure`.
- `clock.getElapsedTime()` is wall-clock time from the render loop. It becomes the `clock` parameter of `WaveScene.Frame`.
- WaveScene.Frame: computes in exact reals. It does not model `Math.sin`, `Math.PI` or `Float32Array` rounding, because those are floating-point concerns. Sine is a parameter, and π is the double's decimal value.
- WaveScene.Frame: requires a non-zero speed and a 3000-slot buffer. With speed 0 the code divides by zero and writes NaN heights; the slider ranges exclude that case (`App.ParamsStayValid`). The line geometry is always built from 1000 points (WaveScene.tsx:20-27).
- The unused `time` variable (WaveScene.tsx:32) duplicates the effective time and is not modelled.
- Calculator.ActualLambda: requires a non-zero frequency. With frequency 0 the code gets an infinite wavelength, and every guess is graded incorrect. The frequency slider keeps the frequency at or above 0.1.
- Calculator.Grade: decides the 5 % tolerance in exact reals. The code compares doubles, and rounding can move a guess typed exactly 5 % off inside the margin. For λ = 3 (speed 3, frequency 1), the doubles give |3.15 − 3| = 0.1499999999999999 < 0.15000000000000002 = 3 · 0.05, so the code grades 3.15 (and 2.85) correct where the model says incorrect.
- Calculator.GradeBoundary: holds in exact reals only. In double arithmetic a guess typed exactly 5 % off can grade correct, for example 3.15 for λ = 3.
- `parseFloat` is modelled as the parameter `parse`. Its lenient prefix parsing is library behaviour. A guess of "Infinity" parses to an infinite number, which is always graded incorrect; `Option<real>` cannot represent it.
- Controls.HandleChange: covers only the three numeric fields. The sliders pass only those, and `isRunning` is changed only by the toggle.
- Controls.SliderRange: the step granularity is recorded, but the validity invariant (`Controls.ValidParams`) only uses the bounds. The bounds alone keep frequency and speed positive.
- App.Measure: treats each pick as seeing the latest marker list. The handler reads the marker count from its render closure but appends through the state updater. Two picks batched into one render are a React scheduling concern and are not modelled.
- `toFixed` display formatting (components/Calculator.tsx:61, 96; components/Controls.tsx:51, 70, 89) is presentation only.
- The network side of the text service: the API key check, prompts, model calls and fallback messages (services/geminiService.ts:4-62, 66-71). The reply text, fallbacks included, is the free `text` argument of `Assistant.Reply`.
- The `await` in the send handler is modelled as two separate events, `Assistant.Send` and `Assistant.Reply`, not as concurrency. The model allows a reply in any state, because the code applies it unconditionally when the promise settles.
- The chat log's auto-scroll effect (components/Assistant.tsx:18-22) is DOM manipulation.
- The optional `isError` flag of a chat message (types.ts:11) is never set by the modelled code, so it is not modelled.
- Assistant.TrimStart: works on Unicode scalar values. ECMAScript strings are UTF-16 code units and may hold lone surrogates. All of `trim`'s whitespace characters lie in the Basic Multilingual Plane, so the two views agree on them.
- components/UnityPanel.tsx is not part of this model. It is an asynchronous fetch, clipboard access and a timer.
