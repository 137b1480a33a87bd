# Display controller input and navigation, modelled in Dafny

This project models the input side and the view engine of the display controller of a 3D
printer (`ultralcd.cpp` of the FW-v2.2.0 firmware, character-LCD build). The parts modelled are:

- the 125 us timer interrupt, which counts ticks, drives the beeper, and samples the rotary
  encoder every fourth tick and the push button every eightieth;
- the quadrature decoder and the button debouncer, with their sticky "updated" and "clicked"
  flags that the polling loop reads and clears;
- `lcd_update`, the poll that reports card changes, handles the status-screen timeout,
  installs the next view and throttles redraws while printing from the card;
- the view installers (`lcd_set_*`), the status line, and the switches;
- the menu macros of the character-LCD build (`START_MENU`, `MENU_ITEM`, `END_MENU`) with their
  cursor and scroll window;
- the menu entry actions, the boolean and integer editors, the SD-card browser's selection and
  click handling, and the start of a print from a file;
- the integer-to-text helpers `itostr*` and `lcd_strlen`.

The model works in the target's arithmetic:

- `int` is 16 bits, and stores into `int16_t` and `uint8_t` wrap.
- `encoder_position > 0x8000` is an unsigned comparison.
- `8 * ms` is computed in 16 bits.
- C's `/` and `%` truncate toward zero.

Hardware reads are parameters of the operations: the port byte, `millis()` and the card-detect
level. Drawing is not modelled.

Module layout:

- `Ints`: machine integers.
- `Quadrature` and `EncoderInput`: the encoder.
- `ButtonInput`: the button.
- `TickSchedule`: the interrupt's counters.
- `MenuWindow`: the menu cursor arithmetic.
- `LcdText` and `Utf8Text`: the text helpers.
- `SdFile`: the browser clamp and the filename check.
- `IntEdit`: the editor clamp.
- `Views`: the shared vocabulary.
- `UltraLcd`: the controller class `Lcd`, which owns an `Encoder` and a `Button`.

Each state-changing routine is a method that is proved against a reference function or states
its new value for every field it may change (per case where the routine branches). The
properties of those reference functions are proved as lemmas. "## Left out" names the few
effects a contract leaves unstated.

The integer editor's entry routine `menu_action_setting_edit_int3` stores `display_view` and
`prev_encoder_position` (ultralcd.cpp:2434-2436), and its commit reads both back
(ultralcd.cpp:2429-2430): the commit is evidently meant to return to the view and encoder
position the editor was opened from. As written it does neither (see Findings).
`Lcd.EditInt3PollAsWritten` follows the code; `Lcd.EditInt3Poll` keeps its own copy of the
view and position and returns there, and the rest of the model uses it.

## Model

| member | source | states |
|---|---|---|
| Quadrature.Phase | Firmwares/Custom/FW-v2.2.0/Marlin/ultralcd.cpp:313 | the A/B bits of a port sample are always one of the four phase codes |
| Quadrature.DirectionTable | Firmwares/Custom/FW-v2.2.0/Marlin/ultralcd.cpp:313-341 | for each new phase, the cyclic predecessor as the last phase counts +1, the successor -1, anything else 0 |
| Quadrature.DirectionByDistance | Firmwares/Custom/FW-v2.2.0/Marlin/ultralcd.cpp:313-341 | a step is counted exactly when one phase bit changed, and never by more than one |
| Quadrature.StepTracksCycle | Firmwares/Custom/FW-v2.2.0/Marlin/ultralcd.cpp:313-341 | a transition that skips no state keeps the count congruent (mod 4) to the move in the phase cycle |
| Quadrature.DirectionReversed | Firmwares/Custom/FW-v2.2.0/Marlin/ultralcd.cpp:313-341 | undoing a transition counts the opposite step |
| Quadrature.TravelTracksCycle | Firmwares/Custom/FW-v2.2.0/Marlin/ultralcd.cpp:305-348 | over any run of samples without a skipped state, the accumulated count agrees mod 4 with the cycle position: no step is lost |
| Quadrature.FullCycleForward | Firmwares/Custom/FW-v2.2.0/Marlin/ultralcd.cpp:313-341 | one full forward detent cycle counts exactly +4 |
| EncoderInput.Encoder.Sample | Firmwares/Custom/FW-v2.2.0/Marlin/ultralcd.cpp:305-348 | the encoder state after a sample is the reference `NextEncoder`: an unblocked change moves the int16 counter by the decoded step, saves its low byte, and raises the flag; the sample always becomes the last phase |
| EncoderInput.Encoder.GetUpdated | Firmwares/Custom/FW-v2.2.0/Marlin/ultralcd.cpp:432-437 | returns the flag and leaves it clear |
| EncoderInput.Encoder.Enable | Firmwares/Custom/FW-v2.2.0/Marlin/ultralcd.cpp:466-471 | resynchronises both phase bytes with the port and unblocks |
| EncoderInput.Encoder.Disable | Firmwares/Custom/FW-v2.2.0/Marlin/ultralcd.cpp:472-475 | blocks the encoder |
| EncoderInput.Encoder.GetPosition | Firmwares/Custom/FW-v2.2.0/Marlin/ultralcd.cpp:526-529 | returns the counter's low byte, which is the counter itself for 0..255 |
| EncoderInput.AcceptedSample | Firmwares/Custom/FW-v2.2.0/Marlin/ultralcd.cpp:311-344 | an accepted sample moves +1 iff the last phase precedes the new one, -1 iff it follows it, and not at all when zero or two phase bits changed |
| EncoderInput.IgnoredSample | Firmwares/Custom/FW-v2.2.0/Marlin/ultralcd.cpp:311-347 | a blocked or unchanged sample changes only the two phase bytes |
| EncoderInput.SampleBecomesLast | Firmwares/Custom/FW-v2.2.0/Marlin/ultralcd.cpp:347 | every sample becomes the last phase, and sampling never unblocks |
| EncoderInput.CounterFollowsTravel | Firmwares/Custom/FW-v2.2.0/Marlin/ultralcd.cpp:305-348 | away from the int16 limits, a run of samples moves the counter by exactly the travel they encode |
| ButtonInput.Button.Sample | Firmwares/Custom/FW-v2.2.0/Marlin/ultralcd.cpp:269-303 | the button state after a sample is the reference `NextButton`; the feedback pulse is emitted on a click or beyond 50 held samples; the emergency stop fires when the count reaches 200 |
| ButtonInput.Button.GetUpdated | Firmwares/Custom/FW-v2.2.0/Marlin/ultralcd.cpp:426-430 | returns the flag and leaves it clear |
| ButtonInput.Button.GetClicked | Firmwares/Custom/FW-v2.2.0/Marlin/ultralcd.cpp:438-442 | returns the click flag and leaves it clear |
| ButtonInput.Button.Enable | Firmwares/Custom/FW-v2.2.0/Marlin/ultralcd.cpp:457-461 | resynchronises with the port and unblocks |
| ButtonInput.Button.Disable | Firmwares/Custom/FW-v2.2.0/Marlin/ultralcd.cpp:462-464 | blocks the button |
| ButtonInput.ComplementMask | Firmwares/Custom/FW-v2.2.0/Marlin/ultralcd.cpp:277 | `~last & EN_C` tests that the button was released at the last sample |
| ButtonInput.HeldCounts | Firmwares/Custom/FW-v2.2.0/Marlin/ultralcd.cpp:278-284 | while the button stays held, the counter counts the samples |
| ButtonInput.HeldEmergencies | Firmwares/Custom/FW-v2.2.0/Marlin/ultralcd.cpp:280-291 | while held, the emergency stop fires once iff the run crosses count 200, and never twice before the counter wraps |
| ButtonInput.PressAndHold | Firmwares/Custom/FW-v2.2.0/Marlin/ultralcd.cpp:277-291 | a press held for n samples is one click, and fires the emergency stop exactly once iff n > 200 |
| ButtonInput.HeldHasNoClicks | Firmwares/Custom/FW-v2.2.0/Marlin/ultralcd.cpp:277 | holding the button produces no further clicks |
| ButtonInput.OnePressOneClick | Firmwares/Custom/FW-v2.2.0/Marlin/ultralcd.cpp:277-296 | a press of any length followed by a release is exactly one click |
| ButtonInput.ReleasedHasNoClicks | Firmwares/Custom/FW-v2.2.0/Marlin/ultralcd.cpp:277 | a released button produces no clicks |
| TickSchedule.NextTimer | Firmwares/Custom/FW-v2.2.0/Marlin/ultralcd.cpp:2668-2691 | the tick counter stays in 0..79 and returns to 0 exactly on a button tick |
| TickSchedule.NextBeeper | Firmwares/Custom/FW-v2.2.0/Marlin/ultralcd.cpp:2671-2679 | the beeper duration counts down by one while positive and never goes negative |
| TickSchedule.BeepTicks | Firmwares/Custom/FW-v2.2.0/Marlin/ultralcd.cpp:516-519 | `8 * ms` is 16-bit and equals 8*ms only below 8192 ms |
| TickSchedule.TimerCountsModulo | Firmwares/Custom/FW-v2.2.0/Marlin/ultralcd.cpp:2666-2692 | after k interrupts the counter is k mod 80 |
| TickSchedule.SamplingRates | Firmwares/Custom/FW-v2.2.0/Marlin/ultralcd.cpp:2682-2691 | the encoder is sampled on exactly every 4th interrupt (500 us) and the button on every 80th (10 ms) |
| TickSchedule.BeeperCountsDown | Firmwares/Custom/FW-v2.2.0/Marlin/ultralcd.cpp:2671-2679 | from duration d, after k interrupts the duration is d-k, or 0 once k > d |
| TickSchedule.BeepLasts | Firmwares/Custom/FW-v2.2.0/Marlin/ultralcd.cpp:2671-2679 | a duration d keeps the pin high on exactly the first d interrupts |
| TickSchedule.BeepMsWraps | Firmwares/Custom/FW-v2.2.0/Marlin/ultralcd.cpp:516-519 | 8191 ms gives 65528 ticks, 8192 ms is silent, and 8193 ms gives 8 ticks |
| MenuWindow.Guard | Firmwares/Custom/FW-v2.2.0/Marlin/ultralcd.cpp:599 | the unsigned `> 0x8000` test resets exactly the negative positions other than -32768 |
| MenuWindow.SlideDownSettles | Firmwares/Custom/FW-v2.2.0/Marlin/ultralcd.cpp:645 | after the downward slide the selection is on the bottom row, and a second slide does nothing |
| MenuWindow.ClampLandsOnLast | Firmwares/Custom/FW-v2.2.0/Marlin/ultralcd.cpp:644 | the END_MENU clamp is idempotent, puts a selection past the end on the last entry, and keeps one inside |
| MenuWindow.ClampEmptyMenu | Firmwares/Custom/FW-v2.2.0/Marlin/ultralcd.cpp:644 | for an empty menu the clamp sends non-negative selections to position -1 and is idempotent |
| MenuWindow.RenderKeepsSelectionVisible | Firmwares/Custom/FW-v2.2.0/Marlin/ultralcd.cpp:597-647 | after one render of a non-empty menu, the selection is an entry and not below the bottom row; if the top row was an entry, it is not above the window |
| MenuWindow.EndMenuIsStable | Firmwares/Custom/FW-v2.2.0/Marlin/ultralcd.cpp:643-647 | every END_MENU after the first in one render changes nothing |
| MenuWindow.SettledIsFixed | Firmwares/Custom/FW-v2.2.0/Marlin/ultralcd.cpp:597-647 | a render of a settled window (selection an entry and on screen) changes nothing |
| MenuWindow.SecondRenderSettles | Firmwares/Custom/FW-v2.2.0/Marlin/ultralcd.cpp:597-647 | from any window, two renders without input settle it |
| MenuWindow.OneRenderMayHideSelection | Firmwares/Custom/FW-v2.2.0/Marlin/ultralcd.cpp:597-647 | concretely, one render can pull the cursor back without showing it; the second render shows it |
| MenuWindow.SevenEntriesFourRows | Firmwares/Custom/FW-v2.2.0/Marlin/ultralcd.cpp:643-647 | seven entries, four rows: selecting entry 6 slides the top row to 3 |
| MenuWindow.GuardMissesMinimum | Firmwares/Custom/FW-v2.2.0/Marlin/ultralcd.cpp:599 | position -32768 passes the guard and selects no entry |
| LcdText.ConvBuffer.Itostr2 | Firmwares/Custom/FW-v2.2.0/Marlin/ultralcd.cpp:2484-2492 | writes `Itostr2Text(x)` and a NUL at the front of the buffer and leaves the rest |
| LcdText.Itostr2Meaning | Firmwares/Custom/FW-v2.2.0/Marlin/ultralcd.cpp:2484-2492 | itostr2 is the low two decimal digits of the byte, zero-filled |
| LcdText.ConvBuffer.Itostr31 | Firmwares/Custom/FW-v2.2.0/Marlin/ultralcd.cpp:2541-2551 | writes `Itostr31Text(xx)` and a NUL and leaves the rest |
| LcdText.Itostr31NonNegative | Firmwares/Custom/FW-v2.2.0/Marlin/ultralcd.cpp:2541-2551 | for xx >= 0: '+', the tens of xx (mod 1000) in three zero-filled digits, '.', the units digit |
| LcdText.ConvBuffer.Itostr3 | Firmwares/Custom/FW-v2.2.0/Marlin/ultralcd.cpp:2553-2570 | writes `Itostr3Text(x)` and a NUL and leaves the rest |
| LcdText.Itostr3InRange | Firmwares/Custom/FW-v2.2.0/Marlin/ultralcd.cpp:2553-2570 | for 0..999 the number right-aligned in three columns |
| LcdText.Itostr3Above | Firmwares/Custom/FW-v2.2.0/Marlin/ultralcd.cpp:2553-2570 | from 1000 on, only the low three digits, zero-filled |
| LcdText.Itostr3Negative | Firmwares/Custom/FW-v2.2.0/Marlin/ultralcd.cpp:2553-2570 | for negatives (except -32768): '-' and the low two digits of the magnitude, blank-filled below ten |
| LcdText.ConvBuffer.Itostr3Left | Firmwares/Custom/FW-v2.2.0/Marlin/ultralcd.cpp:2572-2588 | writes `Itostr3LeftText(xx)` and a NUL and leaves the rest |
| LcdText.Itostr3LeftInRange | Firmwares/Custom/FW-v2.2.0/Marlin/ultralcd.cpp:2572-2588 | for 0..999 exactly the decimal digits, without padding |
| LcdText.ConvBuffer.Itostr4 | Firmwares/Custom/FW-v2.2.0/Marlin/ultralcd.cpp:2590-2607 | writes `Itostr4Text(xx)` and a NUL and leaves the rest |
| LcdText.Itostr4InRange | Firmwares/Custom/FW-v2.2.0/Marlin/ultralcd.cpp:2590-2607 | for 0..9999 the number right-aligned in four columns |
| Utf8Text.LcdStrlen | Firmwares/Custom/FW-v2.2.0/Marlin/ultralcd.cpp:2455-2462 | returns the number of character-starting bytes before the NUL |
| Utf8Text.ContinuationRange | Firmwares/Custom/FW-v2.2.0/Marlin/ultralcd.cpp:2458 | `(b & 0xc0) == 0x80` is exactly 0x80..0xBF |
| Utf8Text.CodePointsAppend | Firmwares/Custom/FW-v2.2.0/Marlin/ultralcd.cpp:2455-2462 | the count is additive over concatenation |
| Utf8Text.AsciiWidth | Firmwares/Custom/FW-v2.2.0/Marlin/ultralcd.cpp:2455-2462 | ASCII text is as wide as it is long |
| Utf8Text.OneCharacterOneColumn | Firmwares/Custom/FW-v2.2.0/Marlin/ultralcd.cpp:2455-2462 | every UTF-8 encoded code point counts as one |
| Utf8Text.WidthOfEncodedText | Firmwares/Custom/FW-v2.2.0/Marlin/ultralcd.cpp:2455-2462 | the width of an encoded text is its number of code points |
| SdFile.SdClampSelectsEntry | Firmwares/Custom/FW-v2.2.0/Marlin/ultralcd.cpp:792-802 | for a non-empty list the clamped position selects an entry of the list, and an in-range position is kept |
| SdFile.SdClampEmptyList | Firmwares/Custom/FW-v2.2.0/Marlin/ultralcd.cpp:792-802 | for an empty list the position becomes -1, which reads as entry 0 (255 with one step per entry) |
| SdFile.FilenameIsPlain | Firmwares/Custom/FW-v2.2.0/Marlin/ultralcd.cpp:2367-2375 | true iff every byte of the name before its NUL is at most 127 |
| SdFile.ToLower | Firmwares/Custom/FW-v2.2.0/Marlin/ultralcd.cpp:2388 | upper-case ASCII letters become lower case; every other byte is kept |
| SdFile.BuildSelectCommand | Firmwares/Custom/FW-v2.2.0/Marlin/ultralcd.cpp:2379-2388 | the command buffer holds "M23 ", the lowercased short name and a NUL |
| SdFile.LowerAllIsLower | Firmwares/Custom/FW-v2.2.0/Marlin/ultralcd.cpp:2386-2388 | a lowercased name has no upper-case letter |
| IntEdit.EditClamp | Firmwares/Custom/FW-v2.2.0/Marlin/ultralcd.cpp:2419-2422 | with ordered bounds the result is within them, an inside position is kept, and an outside one lands on the nearer bound; with crossed bounds it is the maximum |
| IntEdit.EditClampIdempotent | Firmwares/Custom/FW-v2.2.0/Marlin/ultralcd.cpp:2419-2422 | a second poll without input leaves the position alone |
| IntEdit.EditClampMonotone | Firmwares/Custom/FW-v2.2.0/Marlin/ultralcd.cpp:2419-2422 | turning further never moves the edited value back |
| UltraLcd.Truncated | Firmwares/Custom/FW-v2.2.0/Marlin/ultralcd.cpp:543 | the message bytes are cut to at most LCD_WIDTH bytes, as a prefix, and kept whole if they fit |
| UltraLcd.TruncatedColumns | Firmwares/Custom/FW-v2.2.0/Marlin/ultralcd.cpp:543 | the kept text never takes more than LCD_WIDTH columns as `lcd_strlen` counts them; an ASCII message takes exactly as many columns as bytes kept |
| UltraLcd.TruncatedMaySplitCharacter | Firmwares/Custom/FW-v2.2.0/Marlin/ultralcd.cpp:543 | the byte cut can split a character: "café" on four columns keeps a lone UTF-8 lead byte |
| UltraLcd.Lcd.Tick | Firmwares/Custom/FW-v2.2.0/Marlin/ultralcd.cpp:2666-2692 | counter and beeper follow `NextTimer`/`NextBeeper`; the encoder is sampled iff `EncoderDue` and the button iff `ButtonDue`, each by its reference step; feedback and emergency stop are reported |
| UltraLcd.Lcd.ClearTriggeredFlags | Firmwares/Custom/FW-v2.2.0/Marlin/ultralcd.cpp:443-447 | the three flags are clear |
| UltraLcd.Lcd.DisableBuzzer | Firmwares/Custom/FW-v2.2.0/Marlin/ultralcd.cpp:450-454 | the beeper duration is 0 |
| UltraLcd.Lcd.EnableDisplayTimeout | Firmwares/Custom/FW-v2.2.0/Marlin/ultralcd.cpp:477-480 | the timeout is unblocked |
| UltraLcd.Lcd.DisableDisplayTimeout | Firmwares/Custom/FW-v2.2.0/Marlin/ultralcd.cpp:481-484 | the timeout is blocked |
| UltraLcd.Lcd.BeepMs | Firmwares/Custom/FW-v2.2.0/Marlin/ultralcd.cpp:516-519 | the beeper duration is `BeepTicks(ms)` |
| UltraLcd.Lcd.SetRefresh | Firmwares/Custom/FW-v2.2.0/Marlin/ultralcd.cpp:521-524 | the refresh mode is the given one |
| UltraLcd.Lcd.WizardSetPage | Firmwares/Custom/FW-v2.2.0/Marlin/ultralcd.cpp:503-507 | the page is set and a full redraw is due |
| UltraLcd.Lcd.SetEncoderPosition | Firmwares/Custom/FW-v2.2.0/Marlin/ultralcd.cpp:567-570 | the counter is the int8 argument |
| UltraLcd.Lcd.SetStatusScreen | Firmwares/Custom/FW-v2.2.0/Marlin/ultralcd.cpp:395-400 | the status screen is next and the flags are clear |
| UltraLcd.Lcd.SetMenu | Firmwares/Custom/FW-v2.2.0/Marlin/ultralcd.cpp:402-410 | the menu is next, with entry 0 on the top row, and the flags are clear |
| UltraLcd.Lcd.SetPicture | Firmwares/Custom/FW-v2.2.0/Marlin/ultralcd.cpp:411-416 | the picture is next and the flags are clear |
| UltraLcd.Lcd.SetWizard | Firmwares/Custom/FW-v2.2.0/Marlin/ultralcd.cpp:417-423 | the wizard is next on page 0 with a full redraw, and the flags are clear |
| UltraLcd.Lcd.SetStatus | Firmwares/Custom/FW-v2.2.0/Marlin/ultralcd.cpp:539-551 | the message is replaced (truncated) unless an alert is shown |
| UltraLcd.Lcd.SetAlertStatus | Firmwares/Custom/FW-v2.2.0/Marlin/ultralcd.cpp:553-560 | the message is set unless an alert was already shown; the level becomes 1 and the status screen is next |
| UltraLcd.Lcd.ResetAlertLevel | Firmwares/Custom/FW-v2.2.0/Marlin/ultralcd.cpp:562-565 | the alert level is 0 |
| UltraLcd.Lcd.Update | Firmwares/Custom/FW-v2.2.0/Marlin/ultralcd.cpp:350-393 | a card change forces a redraw and reports itself; input, the status screen or a blocked timeout push the deadline; a missed deadline returns to the status screen; a view change forces a redraw and drops stale input; the view routine runs unless a card print is in progress without `force`, then once per refresh limit |
| UltraLcd.Lcd.PushTimeout | Firmwares/Custom/FW-v2.2.0/Marlin/ultralcd.cpp:371-376 | the timeout part of the poll, as in `Update` |
| UltraLcd.Lcd.CheckCard | Firmwares/Custom/FW-v2.2.0/Marlin/ultralcd.cpp:352-369 | the card-detect part of the poll, as in `Update` |
| UltraLcd.Lcd.StartMenuStep | Firmwares/Custom/FW-v2.2.0/Marlin/ultralcd.cpp:597-609 | the window is `StartMenu` of the old one and the encoder is blocked; a pending full redraw becomes an update; otherwise the button flag, then the encoder flag only if the button's was clear, are consumed |
| UltraLcd.Lcd.MenuItemStep | Firmwares/Custom/FW-v2.2.0/Marlin/ultralcd.cpp:614-629 | the line fires iff it is an entry, is the selection, and the click was pending; the click is consumed exactly when the line is the selected entry |
| UltraLcd.Lcd.EndMenuStep | Firmwares/Custom/FW-v2.2.0/Marlin/ultralcd.cpp:643-647 | the position is `ClampToItems`, the top row is `SlideDown`, a slide is reported, and the encoder is re-enabled on the port |
| UltraLcd.Lcd.RenderMenu | Firmwares/Custom/FW-v2.2.0/Marlin/ultralcd.cpp:597-647 | one call of a menu view: the window ends as one `Render` leaves it, unless the top-row entry fires first, which leaves the `StartMenu` window and a blocked encoder; a fired entry is the selected entry and consumed the click; a pending click on a selected entry in the final window fires it |
| UltraLcd.Lcd.MenuRows | Firmwares/Custom/FW-v2.2.0/Marlin/ultralcd.cpp:610-647 | the row loop, with the same guarantees as `RenderMenu` from the `StartMenu` window |
| UltraLcd.Lcd.EndRow | Firmwares/Custom/FW-v2.2.0/Marlin/ultralcd.cpp:643-647 | END_MENU and the loop increments keep the row invariant, and either advance the row or restart the rows once after a slide |
| UltraLcd.LaterRowIsNotFirstRow | Firmwares/Custom/FW-v2.2.0/Marlin/ultralcd.cpp:610-647 | a line checked after the first END_MENU is never the line the first row showed |
| UltraLcd.RowRewind | Firmwares/Custom/FW-v2.2.0/Marlin/ultralcd.cpp:645 | `_lineNr = offset - 1` with `_drawLineNr = -1` keeps the row-to-line correspondence |
| UltraLcd.RowAdvance | Firmwares/Custom/FW-v2.2.0/Marlin/ultralcd.cpp:611 | incrementing both uint8 row counters keeps the row-to-line correspondence |
| UltraLcd.MenuFitsInt16 | Firmwares/Custom/FW-v2.2.0/Marlin/ultralcd.cpp:644 | the clamp target of a menu of up to 255 entries fits an int16 |
| UltraLcd.Lcd.DrawStatusScreen | Firmwares/Custom/FW-v2.2.0/Marlin/ultralcd.cpp:677-680 | the status screen is installed at once, the flags are clear, a card change is reported, and the deadline is pushed only if the status screen was already shown or the timeout is blocked |
| UltraLcd.Lcd.RunMenuAction | Firmwares/Custom/FW-v2.2.0/Marlin/ultralcd.cpp:2325-2353 | back/function: call the routine, then clear the flags; submenu: as `lcd_set_menu`; wizard: next view on page 0, full redraw, flags kept; gcode: queue the command; text: nothing; int: opens the editor; each case states what else stays unchanged |
| UltraLcd.ToggleBool | Firmwares/Custom/FW-v2.2.0/Marlin/ultralcd.cpp:2411-2414 | a bool entry toggles its flag; through `RunMenuAction` nothing else changes |
| UltraLcd.Lcd.BeginEditInt3 | Firmwares/Custom/FW-v2.2.0/Marlin/ultralcd.cpp:2433-2447 | the next view becomes `display_view` and the editor is next; the setting and bounds are recorded; the old position's low byte is saved; the setting's value is on the encoder |
| UltraLcd.Lcd.ClampEditPosition | Firmwares/Custom/FW-v2.2.0/Marlin/ultralcd.cpp:2419-2422 | the position is `EditClamp` of the old one |
| UltraLcd.Lcd.EditInt3PollAsWritten | Firmwares/Custom/FW-v2.2.0/Marlin/ultralcd.cpp:2416-2432 | as written: without a click the position is clamped; on a click the setting takes the clamped value, `display_view` becomes next, and `prev_encoder_position` is put back |
| UltraLcd.Lcd.EditInt3Poll | Firmwares/Custom/FW-v2.2.0/Marlin/ultralcd.cpp:2416-2432 | corrected: on a click the setting takes the clamped value and the editor returns to the view and the full position it was opened from |
| UltraLcd.EditSessionAsWritten | Firmwares/Custom/FW-v2.2.0/Marlin/ultralcd.cpp:2425-2436 | open at menu position 8 on value 5, one step forward, press the knob: the setting is 6, the encoder is back at 6 (not 8), and the editor stays installed |
| UltraLcd.EditSession | Firmwares/Custom/FW-v2.2.0/Marlin/ultralcd.cpp:2425-2436 | the same session, pressed the same way, with the corrected editor: the setting is 6, the main menu is back, at position 8 |
| UltraLcd.PressKnob | Firmwares/Custom/FW-v2.2.0/Marlin/ultralcd.cpp:2682-2691 | a press changes the port byte, so the encoder sampler, which runs first, accepts it without moving the counter and saves the counter's low byte as `prev_encoder_position`; the button sampler then latches the click |
| UltraLcd.Lcd.EnterSdcardMenu | Firmwares/Custom/FW-v2.2.0/Marlin/ultralcd.cpp:766-783 | no entry is marked (255), the cursor is on entry 0, a full redraw is due, and the browser is next as a menu |
| UltraLcd.Lcd.SdcardSelect | Firmwares/Custom/FW-v2.2.0/Marlin/ultralcd.cpp:785-819 | the position is `SdClamp`ed; the selected entry is its quotient, which lies in a non-empty list, and is recorded; a moved cache window or a pending full redraw leaves no update pending |
| UltraLcd.Lcd.SdcardPress | Firmwares/Custom/FW-v2.2.0/Marlin/ultralcd.cpp:876-893 | a pending click is consumed and pressed on the selection: back goes to the main menu, a file starts `SdfileResult`, others reset the cursor unless the depth limit was reached; a click forces a redraw; each kind of entry states what else stays, a file press states the status line, deadline and refresh time it leaves; without a click nothing changes |
| UltraLcd.Lcd.ViewMenuSdcard | Firmwares/Custom/FW-v2.2.0/Marlin/ultralcd.cpp:785-895 | one call of the browser: select, then the click on the selected entry leads back to the main menu, to the status screen with the print outcome, or to the first entry of the new directory (the clamped position once the depth limit is reached); every other field is stated per case |
| UltraLcd.StartCommands | Firmwares/Custom/FW-v2.2.0/Marlin/ultralcd.cpp:2381-2391 | G28 first and M24 last; G29 iff the build has a level sensor; the select command is second to last |
| UltraLcd.SdfileResult | Firmwares/Custom/FW-v2.2.0/Marlin/ultralcd.cpp:2360-2393 | refused iff some byte of the long name is above 127; otherwise hotend 200 and the start commands |
| UltraLcd.SelectCommandIgnoresCase | Firmwares/Custom/FW-v2.2.0/Marlin/ultralcd.cpp:2386-2390 | short names equal up to case start the same print, and the selected name has no upper-case letter |
| UltraLcd.Lcd.ActionSdfile | Firmwares/Custom/FW-v2.2.0/Marlin/ultralcd.cpp:2360-2393 | the outcome is `SdfileResult`; the status screen is installed either way with the flags clear; a refusal shows the bad-filename message unless an alert is shown; the status line, the deadline, the refresh time and the refresh mode are stated for both outcomes |
| UltraLcd.SdfileMessage | Firmwares/Custom/FW-v2.2.0/Marlin/ultralcd.cpp:2360-2378 | an alert keeps the status line; without a card change or a refusal it is kept |
| UltraLcd.SdfileDeadline | Firmwares/Custom/FW-v2.2.0/Marlin/ultralcd.cpp:371-372 | a refusal always pushes the deadline; a start pushes it only from the status screen or with the timeout blocked |
| UltraLcd.CardMessage | Firmwares/Custom/FW-v2.2.0/Marlin/ultralcd.cpp:352-369 | the card message is written only when no alert is shown |

## Left out

- Drawing: every `lcd_implementation_*` call, the `u8g` page loop of the graphic build, the
  labels, and the SD browser's loop over the cache window.
- `lcd_init` and the interrupt enable/disable routines (`TIMSK5` and pin set-up). The
  constructors of `Lcd`, `Encoder` and `Button` give the state those routines leave.
- The beeper pin writes and `lcd_implementation_quick_feedback`. `Tick` reports the pin level
  and the feedback pulse as events.
- `lcd_emergency_stop`: the button sampler reports the call as an event. Its actions are
  not modelled.
- Concurrency: the interrupt and the poll are modelled as separate atomic method calls.
  Interleavings inside a poll are not modelled.
- Time: `millis()` is an unbounded integer parameter, so the wrap-around of the 32-bit
  millisecond counter is not modelled.
- The browsing cache (SDCache) and the card library: `getListLength`, `updateCachePosition`,
  `press` and `maxDirectoryReached` are parameters. The cache's own state changes are not
  modelled, and neither are `menu_action_sddirectory` and `card.*`.
- Byte strings: the file names are parameters (NUL-terminated byte sequences). The 30-byte
  `cmd` buffer of `menu_action_sdfile` is not modelled, so a long name longer than 29 bytes
  does not overflow it here.
- `fanSpeed = PREHEAT_FAN_SPEED` in `menu_action_sdfile`: the constant is not part of this
  model. The serial echo of the bad filename is I/O.
- The routines called by back and function entries, and the queue that `enquecommand`
  feeds: they are reported as `Effect` values.
- The view routine that `lcd_update` calls: `Update` returns whether it runs. The routines of
  the other screens are `Other` views.
- `ultralcd.h` is not part of this model:
  - `LCD_CLICKED` is the `clicked` parameter of the editor polls.
  - `lcd_update()` is taken to mean `lcd_update(false)`.
  - `LCD_MESSAGEPGM` is taken to be `lcd_setstatuspgm`.
  - `ENCODER_STEPS_PER_MENU_ITEM`, `LCD_HEIGHT`, `LCD_WIDTH`, `LCD_TIMEOUT_STATUS` and
    `LCD_REFRESH_LIMIT` are the fields of `Config`, within the ranges `ValidConfig` states.
- The float, long and other instances of `menu_edit_type`, and the float-to-text helpers:
  floating point is not modelled. Only the `int3` instance (scale 1) is.
- `lcd_strlen_P`: the same count over program memory.
- The message texts: they come from the language file, whose wording is not part of this
  model. The model uses English ASCII stand-ins, as the bytes before the NUL; their lengths
  matter only through `Truncated`.
- `ultralcd.h` and the pin header are not part of this model either, for the encoder bits:
  `EN_A` = 1, `EN_B` = 2, `EN_C` = 4 and `encrot0`..`encrot3` = 0, 2, 3, 1 are taken from the
  usual Marlin definitions. `DirectionTable` and everything built on the phase cycle depend on
  them.
- The SDCache header is not part of this model: `getListLength()` is taken to return a
  `uint8_t`. With a 16-bit unsigned return type the comparison at ultralcd.cpp:797 would be
  unsigned, and an empty list would clamp differently from `SdClampEmptyList`. The two calls at
  ultralcd.cpp:797-799 are taken to return the same value (one `listLength`).
- The `#if SDCARDDETECT > 0` block of `lcd_update` (ultralcd.cpp:352-369) and the
  `#if BEEPER > 0` block of the interrupt (ultralcd.cpp:2670-2680) are modelled as compiled in
  (`Update` always checks the card, `Tick` always counts the beeper down).
- The four `millis()` reads of one `lcd_update` (ultralcd.cpp:371, 374, 386, 388) are one
  `now`: the time that passes while the poll runs is not modelled.
- UltraLcd.Lcd.RunMenuAction: the routine of a back or function entry runs before the flags
  are cleared. The model reports the call and clears the flags, so anything the routine
  itself changes is not in the contract.

## Findings

| source | as written | input that shows it | evidently intended | confidence | as-written member | corrected member |
|---|---|---|---|---|---|---|
| Firmwares/Custom/FW-v2.2.0/Marlin/ultralcd.cpp:2429 | on commit, `display_view_next = display_view`; `lcd_update` has already set `display_view` to the editor, so the editor reinstalls itself and never returns | any integer edit opened from a menu, committed with a click (`MENU_ITEM_EDIT`, line 632, is used by no menu in ultralcd.cpp, so the editor is only reachable from menus outside this file) | return to the view the editor was opened from | high, not executed | UltraLcd.EditSessionAsWritten | UltraLcd.Lcd.EditInt3Poll |
| Firmwares/Custom/FW-v2.2.0/Marlin/ultralcd.cpp:2430 | on commit, `encoder_position = prev_encoder_position`; the interrupt overwrites that variable with the counter's low byte on every accepted step (line 312), including the sample that carries the knob press itself (the button bit is part of the byte compared at line 311), so the commit restores the low byte of the edited value | menu position 8, setting 5, one forward step, press: the encoder comes back at 6. This needs the int entry to fire below the top row of its menu, so that the first END_MENU re-enables the encoder (ultralcd.cpp:646); a top-row fire returns (line 626) with the encoder still blocked by START_MENU (line 598), the step is not counted and 8 comes back. `MENU_ITEM_EDIT` (line 632) is used by no menu in ultralcd.cpp, so in this build the editor is only reachable from menus outside this file | restore the menu position the editor was opened at (8) | high, not executed | UltraLcd.EditSessionAsWritten | UltraLcd.EditSession |
