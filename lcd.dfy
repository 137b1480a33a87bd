/** The display controller: the state shared between the timer interrupt and the polling
    loop, the view engine that installs and runs one view routine per poll, the status line,
    the menu macros, the SD browser and the integer editor. Hardware reads (the button/encoder
    port byte, `millis()`, the card-detect pin) are parameters; drawing is not modelled. */
module UltraLcd {
  import opened Ints
  import opened Views
  import opened EncoderInput
  import opened ButtonInput
  import opened MenuWindow
  import opened TickSchedule
  import opened LcdText
  import opened SdFile
  import opened Utf8Text
  import opened IntEdit
  import opened Quadrature

  /** What one timer interrupt did besides updating state: the beeper pin level it wrote,
      which samplers ran, and whether the button sampler pulsed the feedback or called the
      emergency stop. */
  datatype TickEvents = TickEvents(
    beeperHigh: bool,
    encoderSampled: bool,
    buttonSampled: bool,
    feedback: bool,
    emergencyStop: bool)

  /** What a menu entry's action asks of the rest of the firmware. */
  datatype Effect = NoEffect | CallRoutine(routine: nat) | Enqueue(command: seq<bv8>)

  /** What starting a print from the SD browser did. `Started` carries the hotend target and
      the commands queued, in order. */
  datatype SdfileOutcome = BadFilename | Started(hotendTarget: int, commands: seq<seq<bv8>>)

  // Message texts of the language file, as the bytes before their NUL (the exact wording of
  // the language file is not part of this model).
  const MSG_SD_INSERTED: seq<bv8> := [0x43, 0x61, 0x72, 0x64, 0x20, 0x69, 0x6E, 0x73, 0x65, 0x72, 0x74, 0x65, 0x64]   // "Card inserted"
  const MSG_SD_REMOVED: seq<bv8> := [0x43, 0x61, 0x72, 0x64, 0x20, 0x72, 0x65, 0x6D, 0x6F, 0x76, 0x65, 0x64]   // "Card removed"
  const MSG_SD_BAD_FILENAME: seq<bv8> := [0x42, 0x61, 0x64, 0x20, 0x66, 0x69, 0x6C, 0x65, 0x6E, 0x61, 0x6D, 0x65]   // "Bad filename"

  const G28: seq<bv8> := [0x47, 0x32, 0x38]
  const G29: seq<bv8> := [0x47, 0x32, 0x39]
  const G1_Z10: seq<bv8> := [0x47, 0x31, 0x20, 0x5A, 0x31, 0x30]
  const M24: seq<bv8> := [0x4D, 0x32, 0x34]
  /** setTargetHotend0(200) before a print from the card. */
  const SD_PRINT_HOTEND := 200

  /** `strncpy(lcd_status_message, message, LCD_WIDTH)` into a buffer of LCD_WIDTH + 1 bytes
      whose last byte stays NUL: the text (the bytes of `message` before its NUL) is cut to
      at most LCD_WIDTH bytes. The cut counts bytes, not characters, so it may keep the lead
      byte of a multi-byte UTF-8 character without its continuation bytes. */
  function Truncated(message: seq<bv8>, width: int): (r: seq<bv8>)
    requires width >= 0
    ensures |r| <= width && |r| <= |message| && r == message[..|r|]
    ensures |message| <= width ==> r == message
  {
    if |message| <= width then message else message[..width]
  }

  /** The kept text never needs more columns than LCD_WIDTH; an ASCII message occupies
      exactly as many columns as it keeps bytes. */
  lemma TruncatedColumns(message: seq<bv8>, width: int)
    requires width >= 0
    ensures CodePoints(Truncated(message, width)) <= width
    ensures (forall i :: 0 <= i < |message| ==> message[i] < 0x80) ==>
              CodePoints(Truncated(message, width)) == if |message| <= width then |message| else width
  {
    var r := Truncated(message, width);
    if forall i :: 0 <= i < |message| ==> message[i] < 0x80 {
      assert forall i :: 0 <= i < |r| ==> r[i] == message[i];
      AsciiWidth(r);
    }
  }

  /** A cut inside a character: "café" (five bytes, the é being C3 A9) on a four-column
      display keeps "caf" and the lone lead byte C3, whose continuation is dropped. */
  lemma TruncatedMaySplitCharacter()
    ensures var cafe: seq<bv8> := [0x63, 0x61, 0x66, 0xC3, 0xA9];
            && Truncated(cafe, 4) == [0x63, 0x61, 0x66, 0xC3]
            && !IsContinuation(Truncated(cafe, 4)[3]) && IsContinuation(cafe[4])
  {
  }

  /** The card message a poll writes when the card status changed (nothing while an alert
      is shown). */
  function CardMessage(message: seq<bv8>, level: uint8, cardInserted: bool, width: int): (r: seq<bv8>)
    requires width >= 0
    ensures level > 0 ==> r == message
  {
    if level > 0 then message
    else Truncated(if cardInserted then MSG_SD_INSERTED else MSG_SD_REMOVED, width)
  }

  /** The status line after menu_action_sdfile: a refusal first writes the bad-filename
      message, then the forced poll writes the card message if the card changed; an alert
      shown keeps the line as it was. */
  function SdfileMessage(message: seq<bv8>, level: uint8, cardChanged: bool, cardInserted: bool,
                         refused: bool, width: int): (r: seq<bv8>)
    requires width >= 0
    ensures level > 0 ==> r == message
    ensures !cardChanged && !refused ==> r == message
  {
    if cardChanged then CardMessage(message, level, cardInserted, width)
    else if refused && level == 0 then Truncated(MSG_SD_BAD_FILENAME, width)
    else message
  }

  /** The display-timeout deadline after menu_action_sdfile. The forced poll of
      draw_status_screen runs with the flags cleared, so it pushes the deadline only when the
      status screen was already installed or the timeout is blocked; a refusal polls a second
      time with the status screen installed, which always pushes it. */
  function SdfileDeadline(deadline: int, view: View, blocked: bool, refused: bool, now: int, timeout: int): (r: int)
    ensures !refused && view != StatusScreen && !blocked ==> r == deadline
    ensures refused ==> r == now + timeout
  {
    if refused || view == StatusScreen || blocked then now + timeout else deadline
  }

  class Lcd {
    const cfg: Config
    const enc: Encoder
    const btn: Button

    var lcdTimer: int                // lcd_timer
    var beeperDuration: int          // beeper_duration
    var displayRefreshMode: RefreshMode
    var displayTimeout: int          // the deadline in ms
    var displayTimeoutBlocked: bool
    var displayView: View
    var displayViewNext: View
    var refreshInterval: int         // the next refresh allowed while printing, in ms
    var statusMessageLevel: uint8
    var statusMessage: seq<bv8>   // lcd_status_message, up to its NUL
    var menuOffset: uint8            // display_view_menu_offset
    var wizardPage: uint8            // display_view_wizard_page
    var itemSelected: uint8
    var minEditValue: int32
    var maxEditValue: int32
    var editValue: IntCell?
    var oldCardStatus: bool          // lcd_oldcardstatus
    // Where the corrected integer editor returns to (see EditInt3Poll).
    var editReturnView: View
    var editReturnPosition: int16

    ghost predicate Valid()
      reads this
    {
      && ValidConfig(cfg)
      && 0 <= lcdTimer < BUTTON_PERIOD
      && 0 <= beeperDuration < 0x8000_0000
      && |statusMessage| <= cfg.lcdWidth
      && -0x8000 <= minEditValue < 0x8000 && -0x8000 <= maxEditValue < 0x8000
    }

    /** The state lcd_init leaves (its hardware set-up is not modelled): the status screen
        is the next view, no view is installed yet, both inputs are enabled on the current
        port level with their flags clear, and the deadlines start at `now`. */
    constructor (c: Config, port: bv8, cardInserted: bool, now: int, welcome: seq<bv8>)
      requires ValidConfig(c)
      ensures Valid() && cfg == c
      ensures displayViewNext == StatusScreen && displayView == NoView
      ensures displayTimeout == now && refreshInterval == now && !displayTimeoutBlocked
      ensures oldCardStatus == cardInserted && statusMessageLevel == 0
      ensures statusMessage == Truncated(welcome, c.lcdWidth)
      ensures fresh(enc) && fresh(btn)
      ensures !enc.blocked && !enc.updated && enc.position == 0 && enc.inputLast == port
      ensures !btn.blocked && !btn.updated && !btn.clickedTriggered && btn.inputLast == port
      ensures lcdTimer == 0 && beeperDuration == 0 && menuOffset == 0
    {
      cfg := c;
      enc := new Encoder(port);
      btn := new Button(port);
      lcdTimer, beeperDuration := 0, 0;
      displayRefreshMode := NoUpdateScreen;
      displayTimeout, refreshInterval := now, now;
      displayTimeoutBlocked := false;
      displayView, displayViewNext := NoView, StatusScreen;
      statusMessageLevel := 0;
      statusMessage := Truncated(welcome, c.lcdWidth);
      menuOffset, wizardPage, itemSelected := 0, 0, 0;
      minEditValue, maxEditValue := 0, 0;
      editValue := null;
      oldCardStatus := cardInserted;
      editReturnView, editReturnPosition := NoView, 0;
    }

    // -------------------------------------------------------------------------
    // The timer interrupt

    /** ISR(TIMER5_OVF_vect): count the tick, drive the beeper, sample the encoder on every
        fourth tick and the button on every eightieth, where the counter restarts. */
    method Tick(port: bv8) returns (ev: TickEvents)
      requires Valid()
      modifies this`lcdTimer, this`beeperDuration, enc, btn
      ensures Valid()
      ensures lcdTimer == NextTimer(old(lcdTimer))
      ensures beeperDuration == NextBeeper(old(beeperDuration))
      ensures ev.beeperHigh == BeeperHigh(old(beeperDuration))
      ensures ev.encoderSampled == EncoderDue(old(lcdTimer))
      ensures ev.buttonSampled == ButtonDue(old(lcdTimer))
      ensures enc.State() == if ev.encoderSampled then NextEncoder(old(enc.State()), port) else old(enc.State())
      ensures btn.State() == if ev.buttonSampled then NextButton(old(btn.State()), port) else old(btn.State())
      ensures ev.feedback == (ev.buttonSampled && Feedback(old(btn.State()), port))
      ensures ev.emergencyStop == (ev.buttonSampled && Emergency(old(btn.State()), port))
    {
      lcdTimer := lcdTimer + 1;
      var high := false;
      if beeperDuration > 0 {
        high := true;
        beeperDuration := beeperDuration - 1;
      } else {
        beeperDuration := 0;
      }
      var encoderDue := lcdTimer % 4 == 0;
      if encoderDue {
        enc.Sample(port);
      }
      var buttonDue := lcdTimer % 80 == 0;
      var feedback, emergencyStop := false, false;
      if buttonDue {
        feedback, emergencyStop := btn.Sample(port);
        lcdTimer := 0;
      }
      ev := TickEvents(high, encoderDue, buttonDue, feedback, emergencyStop);
    }

    // -------------------------------------------------------------------------
    // Flags and switches

    /** lcd_clear_triggered_flags: the three flags are false and nothing else changes. */
    method ClearTriggeredFlags()
      modifies btn`updated, enc`updated, btn`clickedTriggered
      ensures !btn.updated && !enc.updated && !btn.clickedTriggered
    {
      btn.updated := false;
      enc.updated := false;
      btn.clickedTriggered := false;
    }

    /** lcd_disable_buzzer (the pin write is not modelled). */
    method DisableBuzzer()
      modifies this`beeperDuration
      ensures beeperDuration == 0
    {
      beeperDuration := 0;
    }

    /** lcd_enable_display_timeout */
    method EnableDisplayTimeout()
      modifies this`displayTimeoutBlocked
      ensures !displayTimeoutBlocked
    {
      displayTimeoutBlocked := false;
    }

    /** lcd_disable_display_timeout */
    method DisableDisplayTimeout()
      modifies this`displayTimeoutBlocked
      ensures displayTimeoutBlocked
    {
      displayTimeoutBlocked := true;
    }

    /** lcd_beep_ms: the beeper sounds for the next `BeepTicks(ms)` interrupts. */
    method BeepMs(ms: uint16)
      requires Valid()
      modifies this`beeperDuration
      ensures Valid() && beeperDuration == BeepTicks(ms)
    {
      beeperDuration := (8 * ms) % 0x1_0000;
    }

    /** lcd_set_refresh */
    method SetRefresh(mode: RefreshMode)
      modifies this`displayRefreshMode
      ensures displayRefreshMode == mode
    {
      displayRefreshMode := mode;
    }

    /** lcd_wizard_set_page: a new page is always redrawn from a cleared screen. */
    method WizardSetPage(page: uint8)
      modifies this`wizardPage, this`displayRefreshMode
      ensures wizardPage == page && displayRefreshMode == ClearAndUpdateScreen
    {
      wizardPage := page;
      displayRefreshMode := ClearAndUpdateScreen;
    }

    /** lcd_set_encoder_position */
    method SetEncoderPosition(position: int8)
      modifies enc`position
      ensures enc.position == position
    {
      enc.position := position;
    }

    // -------------------------------------------------------------------------
    // Installing the next view

    /** lcd_set_status_screen */
    method SetStatusScreen()
      modifies this`displayViewNext, btn`updated, enc`updated, btn`clickedTriggered
      ensures displayViewNext == StatusScreen
      ensures !btn.updated && !enc.updated && !btn.clickedTriggered
    {
      displayViewNext := StatusScreen;
      ClearTriggeredFlags();
    }

    /** lcd_set_menu: a menu starts with its first entry selected on the top row. */
    method SetMenu(menu: View)
      modifies this`displayViewNext, this`menuOffset, enc`position
      modifies btn`updated, enc`updated, btn`clickedTriggered
      ensures displayViewNext == menu && menuOffset == 0 && enc.position == 0
      ensures !btn.updated && !enc.updated && !btn.clickedTriggered
    {
      displayViewNext := menu;
      menuOffset := 0;
      enc.position := 0;
      ClearTriggeredFlags();
    }

    /** lcd_set_picture: only the next view and the flags change. */
    method SetPicture(picture: View)
      modifies this`displayViewNext, btn`updated, enc`updated, btn`clickedTriggered
      ensures displayViewNext == picture
      ensures !btn.updated && !enc.updated && !btn.clickedTriggered
    {
      displayViewNext := picture;
      ClearTriggeredFlags();
    }

    /** lcd_set_wizard: a wizard starts on page 0 from a cleared screen. */
    method SetWizard(wizard: View)
      modifies this`displayViewNext, this`wizardPage, this`displayRefreshMode
      modifies btn`updated, enc`updated, btn`clickedTriggered
      ensures displayViewNext == wizard && wizardPage == 0 && displayRefreshMode == ClearAndUpdateScreen
      ensures !btn.updated && !enc.updated && !btn.clickedTriggered
    {
      displayViewNext := wizard;
      WizardSetPage(0);
      ClearTriggeredFlags();
    }

    // -------------------------------------------------------------------------
    // The status line

    /** lcd_setstatus / lcd_setstatuspgm: ignored while an alert is shown. */
    method SetStatus(message: seq<bv8>)
      requires Valid()
      modifies this`statusMessage
      ensures Valid()
      ensures statusMessage == if statusMessageLevel > 0 then old(statusMessage)
                               else Truncated(message, cfg.lcdWidth)
    {
      if statusMessageLevel > 0 {
        return;
      }
      statusMessage := Truncated(message, cfg.lcdWidth);
    }

    /** lcd_setalertstatuspgm: set the message (unless an alert is already shown), raise the
        level so that plain messages cannot overwrite it, and return to the status screen. */
    method SetAlertStatus(message: seq<bv8>)
      requires Valid()
      modifies this`statusMessage, this`statusMessageLevel, this`displayViewNext
      ensures Valid()
      ensures statusMessage == if old(statusMessageLevel) > 0 then old(statusMessage)
                               else Truncated(message, cfg.lcdWidth)
      ensures statusMessageLevel == 1 && displayViewNext == StatusScreen
    {
      SetStatus(message);
      statusMessageLevel := 1;
      displayViewNext := StatusScreen;
    }

    /** lcd_reset_alert_level */
    method ResetAlertLevel()
      modifies this`statusMessageLevel
      ensures statusMessageLevel == 0
    {
      statusMessageLevel := 0;
    }

    // -------------------------------------------------------------------------
    // One poll of the view engine

    /** lcd_update(force): report a card change, push or check the status timeout, install the
        next view (forcing a full redraw and dropping stale input when it changes), and tell
        whether the installed view routine runs now: always, unless a print from the card is
        in progress and `force` is not given, in which case at most once per refresh limit. */
    method Update(force: bool, now: int, cardInserted: bool, sdPrinting: bool) returns (runView: bool)
      requires Valid()
      modifies this`oldCardStatus, this`statusMessage, this`displayRefreshMode, this`displayTimeout
      modifies this`displayViewNext, this`displayView, this`refreshInterval
      modifies btn`updated, enc`updated, btn`clickedTriggered
      ensures Valid()
      ensures oldCardStatus == cardInserted
      ensures old(oldCardStatus) != cardInserted ==>
                statusMessage == (if statusMessageLevel > 0 then old(statusMessage)
                                  else Truncated(if cardInserted then MSG_SD_INSERTED else MSG_SD_REMOVED, cfg.lcdWidth))
      ensures old(oldCardStatus) == cardInserted ==> statusMessage == old(statusMessage)
      ensures displayTimeout ==
                if old(displayView) == StatusScreen || old(displayTimeoutBlocked) || old(btn.updated) || old(enc.updated)
                then now + cfg.timeoutStatus else old(displayTimeout)
      ensures displayViewNext == if displayTimeout < now then StatusScreen else old(displayViewNext)
      ensures displayView == displayViewNext
      ensures displayRefreshMode ==
                if old(displayView) != displayViewNext || old(oldCardStatus) != cardInserted then ClearAndUpdateScreen
                else old(displayRefreshMode)
      ensures if old(displayView) != displayViewNext || displayTimeout < now
              then !btn.updated && !enc.updated && !btn.clickedTriggered
              else btn.updated == old(btn.updated) && enc.updated == old(enc.updated)
                   && btn.clickedTriggered == old(btn.clickedTriggered)
      ensures runView == (!sdPrinting || force || old(refreshInterval) < now)
      ensures refreshInterval == if sdPrinting && !force && old(refreshInterval) < now
                                 then now + cfg.refreshLimit else old(refreshInterval)
    {
      CheckCard(cardInserted);
      PushTimeout(now);
      if displayView != displayViewNext {
        displayRefreshMode := ClearAndUpdateScreen;
        ClearTriggeredFlags();
      }
      displayView := displayViewNext;
      if sdPrinting && !force {
        if refreshInterval < now {
          runView := true;
          refreshInterval := now + cfg.refreshLimit;
        } else {
          runView := false;
        }
      } else {
        runView := true;
      }
    }

    /** The timeout part of lcd_update: any input, the status screen itself or a blocked
        timeout push the deadline; a deadline in the past returns to the status screen. */
    method PushTimeout(now: int)
      modifies this`displayTimeout, this`displayViewNext, btn`updated, enc`updated, btn`clickedTriggered
      ensures displayTimeout ==
                if displayView == StatusScreen || displayTimeoutBlocked || old(btn.updated) || old(enc.updated)
                then now + cfg.timeoutStatus else old(displayTimeout)
      ensures displayViewNext == if displayTimeout < now then StatusScreen else old(displayViewNext)
      ensures if displayTimeout < now
              then !btn.updated && !enc.updated && !btn.clickedTriggered
              else btn.updated == old(btn.updated) && enc.updated == old(enc.updated)
                   && btn.clickedTriggered == old(btn.clickedTriggered)
    {
      if displayView == StatusScreen || displayTimeoutBlocked || btn.updated || enc.updated {
        displayTimeout := now + cfg.timeoutStatus;
      }
      if displayTimeout < now {
        SetStatusScreen();
      }
    }

    /** The card-detect part of lcd_update: a change of the card-detect level forces a full
        redraw and reports the insertion or removal on the status line. */
    method CheckCard(cardInserted: bool)
      requires Valid()
      modifies this`oldCardStatus, this`statusMessage, this`displayRefreshMode
      ensures Valid()
      ensures oldCardStatus == cardInserted
      ensures old(oldCardStatus) != cardInserted ==>
                statusMessage == (if statusMessageLevel > 0 then old(statusMessage)
                                  else Truncated(if cardInserted then MSG_SD_INSERTED else MSG_SD_REMOVED, cfg.lcdWidth))
                && displayRefreshMode == ClearAndUpdateScreen
      ensures old(oldCardStatus) == cardInserted ==>
                statusMessage == old(statusMessage) && displayRefreshMode == old(displayRefreshMode)
    {
      if oldCardStatus != cardInserted {
        displayRefreshMode := ClearAndUpdateScreen;
        oldCardStatus := cardInserted;
        // lcd_implementation_init and card.initsd / card.release are not modelled.
        if oldCardStatus {
          SetStatus(MSG_SD_INSERTED);
        } else {
          SetStatus(MSG_SD_REMOVED);
        }
      }
    }

    // -------------------------------------------------------------------------
    // The menu macros

    /** START_MENU up to its row loop: block the encoder, apply the guard and the upward
        slide, and settle the refresh mode (a pending full redraw becomes a plain update; else
        a pending button or encoder change asks for one, reading the flags with `||`, so the
        encoder flag is left alone when the button flag was set). */
    method StartMenuStep()
      requires Valid()
      modifies enc`position, enc`blocked, enc`updated, btn`updated, this`menuOffset, this`displayRefreshMode
      ensures Window(enc.position, menuOffset)
                == StartMenu(Window(old(enc.position), old(menuOffset)), cfg.stepsPerMenuItem)
      ensures enc.blocked
      ensures old(displayRefreshMode) == ClearAndUpdateScreen ==>
                displayRefreshMode == UpdateScreen && btn.updated == old(btn.updated) && enc.updated == old(enc.updated)
      ensures old(displayRefreshMode) != ClearAndUpdateScreen ==>
                !btn.updated && enc.updated == (old(btn.updated) && old(enc.updated))
                && displayRefreshMode == (if old(btn.updated) || old(enc.updated) then UpdateScreen else old(displayRefreshMode))
    {
      var steps := cfg.stepsPerMenuItem;
      enc.Disable();
      if AsUnsigned16(enc.position) > 0x8000 {
        enc.position := 0;
      }
      if CDiv(enc.position, steps) < menuOffset {
        menuOffset := ToUint8(CDiv(enc.position, steps));
        // `display_refresh_mode == CLEAR_AND_UPDATE_SCREEN;` here is a comparison, not an assignment.
      }
      if displayRefreshMode == ClearAndUpdateScreen {
        displayRefreshMode := UpdateScreen;
      } else {
        var buttonUpdated := btn.GetUpdated();
        var encoderUpdated := false;
        if !buttonUpdated {
          encoderUpdated := enc.GetUpdated();
        }
        if buttonUpdated || encoderUpdated {
          displayRefreshMode := UpdateScreen;
        }
      }
    }

    /** The MENU_ITEM whose number is the row's line: it fires when it is an entry (not a
        dummy), it is the selection, and the click flag, which the check reads and clears, was
        set. The flag is read only when the entry is the selection. */
    method MenuItemStep(items: seq<MenuLine>, lineNr: uint8) returns (hit: bool)
      requires Valid()
      modifies btn`clickedTriggered
      ensures var selected := lineNr < |items| && items[lineNr].Entry?
                              && Selection(enc.position, cfg.stepsPerMenuItem) == lineNr;
              && hit == (selected && old(btn.clickedTriggered))
              && btn.clickedTriggered == (old(btn.clickedTriggered) && !selected)
    {
      hit := false;
      if lineNr < |items| && items[lineNr].Entry? && CDiv(enc.position, cfg.stepsPerMenuItem) == lineNr {
        hit := btn.GetClicked();
      }
    }

    /** END_MENU: clamp the position to the last of the n entries, slide the window down when
        the selection (as a uint8_t) is below the bottom row, and re-enable the encoder on the
        current port level. Tells whether the window slid, which restarts the rows. */
    method EndMenuStep(n: nat, port: bv8) returns (slid: bool)
      requires Valid() && n <= 255
      modifies enc`position, enc`input, enc`inputLast, enc`blocked, this`menuOffset
      ensures enc.position == ClampToItems(old(enc.position), n, cfg.stepsPerMenuItem)
      ensures slid == Rewinds(enc.position, old(menuOffset), cfg.stepsPerMenuItem, cfg.lcdHeight)
      ensures menuOffset == SlideDown(enc.position, old(menuOffset), cfg.stepsPerMenuItem, cfg.lcdHeight)
      ensures enc.input == port && enc.inputLast == port && !enc.blocked
    {
      var steps, height := cfg.stepsPerMenuItem, cfg.lcdHeight;
      if CDiv(enc.position, steps) >= n {
        enc.position := ToInt16(n * steps - 1);
      }
      slid := false;
      if ToUint8(CDiv(enc.position, steps)) >= menuOffset + height {
        menuOffset := ToUint8(CDiv(enc.position, steps) - height + 1);
        slid := true;
      }
      enc.Enable(port);
    }

    /** One call of a menu view: START_MENU, then for every row the MENU_ITEM of the line that
        row shows followed by END_MENU (in this build END_MENU closes the row loop's body, so
        the clamp, the downward slide and lcd_enable_encoder run after each row, and a slide
        restarts the rows at the new top: `_lineNr = offset - 1; _drawLineNr = -1`). The result
        is the entry whose `menu_action_<type>` the view runs before it returns; drawing is not
        modelled.
        The window ends as one render leaves it, except when the entry on the first row fires
        before any END_MENU ran: then the window is as START_MENU left it and the encoder stays
        blocked. A fired entry is the selection and consumed the click; a pending click on an
        entry that is the selection and visible in the final window fires it. */
    method RenderMenu(items: seq<MenuLine>, port: bv8) returns (fired: Option<nat>)
      requires Valid() && |items| <= 255
      modifies enc`position, enc`blocked, enc`input, enc`inputLast, enc`updated
      modifies btn`updated, btn`clickedTriggered, this`menuOffset, this`displayRefreshMode
      ensures Valid()
      ensures old(displayRefreshMode) == ClearAndUpdateScreen ==>
                displayRefreshMode == UpdateScreen && btn.updated == old(btn.updated) && enc.updated == old(enc.updated)
      ensures old(displayRefreshMode) != ClearAndUpdateScreen ==>
                !btn.updated && enc.updated == (old(btn.updated) && old(enc.updated))
                && displayRefreshMode == (if old(btn.updated) || old(enc.updated) then UpdateScreen else old(displayRefreshMode))
      ensures enc.blocked ==>
                Window(enc.position, menuOffset) == StartMenu(Window(old(enc.position), old(menuOffset)), cfg.stepsPerMenuItem)
      ensures !enc.blocked ==>
                Window(enc.position, menuOffset)
                  == Render(Window(old(enc.position), old(menuOffset)), |items|, cfg.stepsPerMenuItem, cfg.lcdHeight)
                && enc.input == port && enc.inputLast == port
      ensures enc.blocked <==>
                fired == Some(StartMenu(Window(old(enc.position), old(menuOffset)), cfg.stepsPerMenuItem).offset)
      ensures fired.Some? ==>
                fired.value < |items| && items[fired.value].Entry?
                && Selection(enc.position, cfg.stepsPerMenuItem) == fired.value
                && old(btn.clickedTriggered) && !btn.clickedTriggered
      ensures fired.None? ==> btn.clickedTriggered == old(btn.clickedTriggered)
      ensures var first := StartMenu(Window(old(enc.position), old(menuOffset)), cfg.stepsPerMenuItem);
              var last := Render(Window(old(enc.position), old(menuOffset)), |items|, cfg.stepsPerMenuItem, cfg.lcdHeight);
              var sel := Selection(first.position, cfg.stepsPerMenuItem);
              old(btn.clickedTriggered) && 0 <= sel < |items| && items[sel].Entry?
              && last.offset <= sel < last.offset + cfg.lcdHeight
              ==> fired == Some(sel)
    {
      ghost var w0 := Window(enc.position, menuOffset);
      StartMenuStep();
      fired := MenuRows(items, port, w0);
    }

    /** The row loop of START_MENU ... END_MENU, entered with the window as START_MENU left it
        (from the window w0 it found) and the encoder blocked. Each row runs the MENU_ITEM of
        the line it shows, then END_MENU. */
    method MenuRows(items: seq<MenuLine>, port: bv8, ghost w0: Window) returns (fired: Option<nat>)
      requires Valid() && |items| <= 255
      requires Window(enc.position, menuOffset) == StartMenu(w0, cfg.stepsPerMenuItem) && enc.blocked
      modifies enc`position, enc`blocked, enc`input, enc`inputLast, btn`clickedTriggered, this`menuOffset
      ensures enc.blocked ==> Window(enc.position, menuOffset) == StartMenu(w0, cfg.stepsPerMenuItem)
      ensures !enc.blocked ==>
                Window(enc.position, menuOffset) == Render(w0, |items|, cfg.stepsPerMenuItem, cfg.lcdHeight)
                && enc.input == port && enc.inputLast == port
      ensures enc.blocked <==> fired == Some(StartMenu(w0, cfg.stepsPerMenuItem).offset)
      ensures fired.Some? ==>
                fired.value < |items| && items[fired.value].Entry?
                && Selection(enc.position, cfg.stepsPerMenuItem) == fired.value
                && old(btn.clickedTriggered) && !btn.clickedTriggered
      ensures fired.None? ==> btn.clickedTriggered == old(btn.clickedTriggered)
      ensures var first := StartMenu(w0, cfg.stepsPerMenuItem);
              var last := Render(w0, |items|, cfg.stepsPerMenuItem, cfg.lcdHeight);
              var sel := Selection(first.position, cfg.stepsPerMenuItem);
              old(btn.clickedTriggered) && 0 <= sel < |items| && items[sel].Entry?
              && last.offset <= sel < last.offset + cfg.lcdHeight
              ==> fired == Some(sel)
    {
      ghost var clicked0 := btn.clickedTriggered;
      var lineNr: uint8 := menuOffset;
      var drawLineNr: uint8 := 0;
      ghost var firstRow, restarted := true, false;
      assert ToUint8(menuOffset + 0) == menuOffset;
      while drawLineNr < cfg.lcdHeight
        invariant RowLoop(items, port, w0, clicked0, lineNr, drawLineNr, firstRow, restarted)
        decreases if restarted then 0 else 1, cfg.lcdHeight - drawLineNr
      {
        var hit := MenuItemStep(items, lineNr);
        if hit {
          fired := Some(lineNr);
          if !firstRow {
            MenuFitsInt16(|items|, cfg.stepsPerMenuItem);
            EndMenuIsStable(w0, |items|, cfg.stepsPerMenuItem, cfg.lcdHeight);
            LaterRowIsNotFirstRow(lineNr, drawLineNr, restarted, StartMenu(w0, cfg.stepsPerMenuItem),
                                  Render(w0, |items|, cfg.stepsPerMenuItem, cfg.lcdHeight),
                                  cfg.stepsPerMenuItem, cfg.lcdHeight);
          }
          return;
        }
        lineNr, drawLineNr, restarted := EndRow(items, port, lineNr, drawLineNr, w0, clicked0, firstRow, restarted);
        firstRow := false;
      }
      fired := None;
    }

    /** Where the row loop stands: `lineNr` is the line that row `drawLineNr` shows; before
        the first END_MENU the window is as START_MENU left it and the encoder blocked, after
        it the window is as a full render leaves it and the encoder enabled; the rows were
        restarted only by a slide; the click is still pending; and a selection that the click
        would fire has not been passed yet. */
    ghost predicate RowLoop(items: seq<MenuLine>, port: bv8, w0: Window, clicked0: bool,
                            lineNr: uint8, drawLineNr: int, firstRow: bool, restarted: bool)
      reads this, enc, btn
      requires Valid()
    {
      var steps, height, n := cfg.stepsPerMenuItem, cfg.lcdHeight, |items|;
      var first, last := StartMenu(w0, steps), Render(w0, n, steps, height);
      var sel := Selection(first.position, steps);
      var pending := clicked0 && 0 <= sel < n && items[sel].Entry? && last.offset <= sel < last.offset + height;
      && 0 <= drawLineNr <= height
      && lineNr == ToUint8(menuOffset + drawLineNr)
      && (firstRow ==>
            drawLineNr == 0 && !restarted && Window(enc.position, menuOffset) == first && enc.blocked)
      && (!firstRow ==>
            Window(enc.position, menuOffset) == last && !enc.blocked
            && enc.input == port && enc.inputLast == port)
      && (!firstRow && !restarted ==> 1 <= drawLineNr && last.offset == first.offset)
      && (restarted ==> Rewinds(last.position, first.offset, steps, height))
      && btn.clickedTriggered == clicked0
      && (!firstRow && pending ==> last.offset + drawLineNr <= sel)
    }

    /** The rest of a row whose entry did not fire: END_MENU, then the loop header's
        increments, after `_lineNr = offset - 1; _drawLineNr = -1` when the window slid. */
    method EndRow(items: seq<MenuLine>, port: bv8, lineNr: uint8, drawLineNr: uint8,
                  ghost w0: Window, ghost clicked0: bool, ghost firstRow: bool, ghost restarted: bool)
      returns (nextLineNr: uint8, nextDrawLineNr: uint8, ghost nextRestarted: bool)
      requires Valid() && |items| <= 255 && drawLineNr < cfg.lcdHeight
      requires RowLoop(items, port, w0, clicked0, lineNr, drawLineNr, firstRow, restarted)
      requires !(clicked0 && lineNr < |items| && items[lineNr].Entry?
                 && Selection(enc.position, cfg.stepsPerMenuItem) == lineNr)
      modifies enc`position, enc`blocked, enc`input, enc`inputLast, this`menuOffset
      ensures RowLoop(items, port, w0, clicked0, nextLineNr, nextDrawLineNr, false, nextRestarted)
      ensures (nextRestarted && !restarted) || (nextRestarted == restarted && drawLineNr < nextDrawLineNr)
    {
      var steps, height, n := cfg.stepsPerMenuItem, cfg.lcdHeight, |items|;
      ghost var first := StartMenu(w0, steps);
      ghost var last := Render(w0, n, steps, height);
      ghost var sel := Selection(first.position, steps);
      ghost var pending := clicked0 && 0 <= sel < n && items[sel].Entry? && last.offset <= sel < last.offset + height;
      MenuFitsInt16(n, steps);
      EndMenuIsStable(w0, n, steps, height);
      assert pending ==> last.position == first.position && lineNr != sel;

      var slid := EndMenuStep(n, port);
      nextLineNr, nextDrawLineNr, nextRestarted := lineNr, drawLineNr, restarted;
      if slid {
        RowRewind(menuOffset);
        nextLineNr := ToUint8(menuOffset - 1);
        nextDrawLineNr := 255;
        nextRestarted := true;
      }
      RowAdvance(menuOffset, nextDrawLineNr, nextLineNr);
      nextDrawLineNr := ToUint8(nextDrawLineNr + 1);
      nextLineNr := ToUint8(nextLineNr + 1);
    }

    // -------------------------------------------------------------------------
    // Menu entry actions

    /** draw_status_screen: install the status screen and run a forced poll, which installs it
        at once (and reports a card change like any poll). The refresh mode stated is the one
        the poll leaves for the status view routine, which then runs and consumes it; that
        routine is not part of this model. */
    method DrawStatusScreen(now: int, cardInserted: bool, sdPrinting: bool)
      requires Valid()
      modifies this`oldCardStatus, this`statusMessage, this`displayRefreshMode, this`displayTimeout
      modifies this`displayViewNext, this`displayView, this`refreshInterval
      modifies btn`updated, enc`updated, btn`clickedTriggered
      ensures Valid()
      ensures displayView == StatusScreen && displayViewNext == StatusScreen
      ensures !btn.updated && !enc.updated && !btn.clickedTriggered
      ensures oldCardStatus == cardInserted && refreshInterval == old(refreshInterval)
      ensures old(oldCardStatus) != cardInserted ==>
                statusMessage == (if statusMessageLevel > 0 then old(statusMessage)
                                  else Truncated(if cardInserted then MSG_SD_INSERTED else MSG_SD_REMOVED, cfg.lcdWidth))
      ensures old(oldCardStatus) == cardInserted ==> statusMessage == old(statusMessage)
      ensures displayRefreshMode ==
                if old(displayView) != StatusScreen || old(oldCardStatus) != cardInserted then ClearAndUpdateScreen
                else old(displayRefreshMode)
      ensures displayTimeout ==
                if old(displayView) == StatusScreen || displayTimeoutBlocked then now + cfg.timeoutStatus
                else old(displayTimeout)
    {
      SetStatusScreen();
      var runView := Update(true, now, cardInserted, sdPrinting);
    }

    /** menu_action_<type> for the entry a menu view fired. Back and function entries call
        their routine (reported as the effect) and then clear the flags; a submenu entry
        installs its menu as lcd_set_menu does; a wizard entry installs its wizard on page 0
        from a cleared screen and leaves the flags alone; a gcode entry queues its command; a
        text entry does nothing; a bool entry toggles its flag; an int entry opens the editor. */
    method RunMenuAction(action: MenuAction) returns (effect: Effect)
      requires Valid()
      modifies this`displayViewNext, this`menuOffset, this`wizardPage, this`displayRefreshMode
      modifies this`displayView, this`editValue, this`minEditValue, this`maxEditValue
      modifies this`editReturnView, this`editReturnPosition
      modifies enc`position, enc`prevPosition, btn`updated, enc`updated, btn`clickedTriggered
      modifies if action.EditBool? then {action.flag} else {}
      ensures Valid()
      ensures effect == match action
                          case Back(routine) => CallRoutine(routine)
                          case Function(routine) => CallRoutine(routine)
                          case Gcode(command) => Enqueue(command)
                          case _ => NoEffect
      ensures action.Back? || action.Function? ==>
                unchanged(this) && enc.position == old(enc.position) && enc.prevPosition == old(enc.prevPosition)
                && !btn.updated && !enc.updated && !btn.clickedTriggered
      ensures action.Submenu? ==>
                displayViewNext == action.target && menuOffset == 0 && enc.position == 0
                && !btn.updated && !enc.updated && !btn.clickedTriggered
                && displayView == old(displayView) && displayRefreshMode == old(displayRefreshMode)
                && wizardPage == old(wizardPage) && enc.prevPosition == old(enc.prevPosition)
                && editValue == old(editValue) && minEditValue == old(minEditValue) && maxEditValue == old(maxEditValue)
                && editReturnView == old(editReturnView) && editReturnPosition == old(editReturnPosition)
      ensures action.Wizard? ==>
                displayViewNext == action.target && wizardPage == 0 && displayRefreshMode == ClearAndUpdateScreen
                && unchanged(enc, btn) && menuOffset == old(menuOffset) && displayView == old(displayView)
                && editValue == old(editValue) && minEditValue == old(minEditValue) && maxEditValue == old(maxEditValue)
                && editReturnView == old(editReturnView) && editReturnPosition == old(editReturnPosition)
      ensures action.Gcode? || action.Text? ==> unchanged(this, enc, btn)
      ensures action.EditBool? ==> action.flag.value == !old(action.flag.value) && unchanged(this, enc, btn)
      ensures action.EditInt? ==>
                EditorOpened(action.setting, action.minValue, action.maxValue, old(displayViewNext), old(enc.position))
                && enc.position == old(action.setting.value) && unchanged(btn)
                && menuOffset == old(menuOffset) && wizardPage == old(wizardPage)
                && displayRefreshMode == old(displayRefreshMode) && enc.updated == old(enc.updated)
    {
      match action {
        case Back(routine) =>
          effect := CallRoutine(routine);
          ClearTriggeredFlags();
        case Function(routine) =>
          effect := CallRoutine(routine);
          ClearTriggeredFlags();
        case Submenu(target) =>
          effect := NoEffect;
          SetMenu(target);
        case Wizard(target) =>
          effect := NoEffect;
          displayViewNext := target;
          WizardSetPage(0);
        case Gcode(command) =>
          effect := Enqueue(command);
        case Text =>
          effect := NoEffect;
        case EditBool(flag) =>
          effect := NoEffect;
          ToggleBool(flag);
        case EditInt(setting, minValue, maxValue) =>
          effect := NoEffect;
          BeginEditInt3(setting, minValue, maxValue);
      }
    }

    // -------------------------------------------------------------------------
    // The integer editor

    /** What opening the editor leaves: `display_view` holds the view that was next (the
        menu), the editor is next, the setting and its bounds are recorded, and the low byte
        of the menu position is saved in `prev_encoder_position`. The corrected editor also
        records the view and the full position it returns to. */
    ghost predicate EditorOpened(setting: IntCell, minValue: int16, maxValue: int16, from: View, position: int16)
      reads this, enc
    {
      && displayView == from && displayViewNext == EditInt3
      && editValue == setting && minEditValue == minValue && maxEditValue == maxValue
      && enc.prevPosition == ToUint8(position)
      && editReturnView == from && editReturnPosition == position
    }

    /** menu_action_setting_edit_int3 (scale 1): open the editor on a setting, with the
        setting's value on the encoder. */
    method BeginEditInt3(setting: IntCell, minValue: int16, maxValue: int16)
      requires Valid()
      modifies this`displayView, this`displayViewNext, this`editValue, this`minEditValue, this`maxEditValue
      modifies this`editReturnView, this`editReturnPosition, enc`prevPosition, enc`position
      ensures Valid()
      ensures EditorOpened(setting, minValue, maxValue, old(displayViewNext), old(enc.position))
      ensures enc.position == setting.value
    {
      displayView := displayViewNext;
      enc.prevPosition := ToUint8(enc.position);
      editReturnView, editReturnPosition := displayViewNext, enc.position;
      displayViewNext := EditInt3;
      editValue := setting;
      minEditValue, maxEditValue := minValue, maxValue;
      enc.position := setting.value;
    }

    /** The clamps at the top of menu_edit_int3: the position is pulled up to the minimum,
        then down to the maximum. */
    method ClampEditPosition()
      requires Valid()
      modifies enc`position
      ensures enc.position == EditClamp(old(enc.position), minEditValue as int16, maxEditValue as int16)
    {
      if enc.position < minEditValue {
        enc.position := minEditValue as int16;
      }
      if enc.position > maxEditValue {
        enc.position := maxEditValue as int16;
      }
    }

    /** menu_edit_int3 as written, with `clicked` the LCD_CLICKED level: clamp the position;
        on a click store it in the setting, make `display_view` the next view and put
        `prev_encoder_position` back on the encoder. */
    method EditInt3PollAsWritten(clicked: bool)
      requires Valid() && editValue != null
      modifies enc`position, editValue`value, this`displayViewNext
      ensures var v := EditClamp(old(enc.position), minEditValue as int16, maxEditValue as int16);
              if clicked then editValue.value == v && displayViewNext == displayView && enc.position == enc.prevPosition
              else enc.position == v && editValue.value == old(editValue.value) && displayViewNext == old(displayViewNext)
    {
      ClampEditPosition();
      if clicked {
        editValue.value := enc.position;
        displayViewNext := displayView;
        enc.position := enc.prevPosition;
      }
    }

    /** menu_edit_int3 as intended: on a click the setting takes the clamped value and the
        editor returns to the view it was opened from, with the menu position it had then. */
    method EditInt3Poll(clicked: bool)
      requires Valid() && editValue != null
      modifies enc`position, editValue`value, this`displayViewNext
      ensures var v := EditClamp(old(enc.position), minEditValue as int16, maxEditValue as int16);
              if clicked then editValue.value == v && displayViewNext == editReturnView && enc.position == editReturnPosition
              else enc.position == v && editValue.value == old(editValue.value) && displayViewNext == old(displayViewNext)
    {
      ClampEditPosition();
      if clicked {
        editValue.value := enc.position;
        displayViewNext := editReturnView;
        enc.position := editReturnPosition;
      }
    }

    // -------------------------------------------------------------------------
    // The SD browser

    /** draw_menu_sdcard (creating, rewinding and reloading the browsing cache are not
        modelled): no entry is marked (`item_selected = -1` in a uint8_t), the cursor is on the
        first entry, a full redraw is due and the browser is installed like a menu. */
    method EnterSdcardMenu()
      modifies this`itemSelected, this`displayRefreshMode, this`displayViewNext, this`menuOffset
      modifies enc`position, btn`updated, enc`updated, btn`clickedTriggered
      ensures itemSelected == 255 && displayRefreshMode == ClearAndUpdateScreen
      ensures displayViewNext == SdcardMenu && menuOffset == 0 && enc.position == 0
      ensures !btn.updated && !enc.updated && !btn.clickedTriggered
    {
      itemSelected := ToUint8(-1);
      enc.position := 0;
      displayRefreshMode := ClearAndUpdateScreen;
      SetMenu(SdcardMenu);
    }

    /** The input part of view_menu_sdcard: clamp the encoder into the list of `listLength`
        entries, select the entry it points at, move the cache window there (the cache's
        `updateCachePosition` says whether the window moved, which asks for a full redraw),
        and consume a pending full redraw. */
    method SdcardSelect(listLength: uint8, updateCachePosition: uint8 -> bool) returns (selected: uint8)
      requires Valid()
      modifies enc`position, this`itemSelected, this`displayRefreshMode
      ensures Valid()
      ensures enc.position == SdClamp(old(enc.position), listLength, cfg.stepsPerMenuItem)
      ensures selected == ToUint8(CDiv(enc.position, cfg.stepsPerMenuItem)) && itemSelected == selected
      ensures 1 <= listLength ==> selected < listLength
      ensures displayRefreshMode ==
                if old(displayRefreshMode) == ClearAndUpdateScreen || updateCachePosition(selected) then NoUpdateScreen
                else old(displayRefreshMode)
    {
      var steps := cfg.stepsPerMenuItem;
      MenuFitsInt16(listLength, steps);
      var shadow: int16 := enc.position;
      if shadow < 0 {
        enc.position := 0;
        shadow := 0;
      } else if shadow > steps * listLength - 1 {
        enc.position := steps * listLength - 1;
        shadow := steps * listLength - 1;
      }
      if 1 <= listLength {
        SdClampSelectsEntry(old(enc.position), listLength, steps);
      }
      selected := ToUint8(CDiv(shadow, steps));
      var windowUpdated := updateCachePosition(selected);
      if windowUpdated {
        displayRefreshMode := ClearAndUpdateScreen;
        itemSelected := selected;
      }
      itemSelected := selected;
      if displayRefreshMode == ClearAndUpdateScreen {
        displayRefreshMode := NoUpdateScreen;
      }
    }

    /** The click part of view_menu_sdcard. A pending click is consumed and pressed on the
        selected entry; the cache's `press` answers with the entry's type, and
        `maxDirectoryReached` is its answer afterwards. The back entry returns to the main
        menu, a file starts a print, any other entry puts the cursor on the first entry unless
        the directory depth limit was reached; every click asks for a full redraw. */
    method SdcardPress(selected: uint8, press: uint8 -> EntryType, maxDirectoryReached: bool,
                       longName: seq<bv8>, shortName: seq<bv8>, levelSensor: bool,
                       now: int, cardInserted: bool, sdPrinting: bool)
      returns (pressed: Option<EntryType>, start: Option<SdfileOutcome>)
      requires Valid() && 0 in longName && 0 in shortName
      modifies this`oldCardStatus, this`statusMessage, this`displayRefreshMode, this`displayTimeout
      modifies this`displayViewNext, this`displayView, this`refreshInterval, this`menuOffset
      modifies enc`position, btn`updated, enc`updated, btn`clickedTriggered
      ensures Valid()
      ensures pressed == if old(btn.clickedTriggered) then Some(press(selected)) else None
      ensures !btn.clickedTriggered
      ensures start == if pressed == Some(FileEntry) then Some(SdfileResult(longName, shortName, levelSensor)) else None
      ensures pressed == Some(BackEntry) ==>
                displayViewNext == MainMenu && menuOffset == 0 && enc.position == 0 && displayView == old(displayView)
      ensures pressed == Some(FileEntry) ==> displayView == StatusScreen && displayViewNext == StatusScreen
      ensures pressed == Some(UpdirEntry) || pressed == Some(FolderEntry) ==>
                enc.position == (if maxDirectoryReached then old(enc.position) else 0)
                && displayViewNext == old(displayViewNext) && displayView == old(displayView)
      ensures pressed.Some? ==> displayRefreshMode == ClearAndUpdateScreen
      ensures pressed.None? ==> unchanged(this) && unchanged(enc) && unchanged(btn)
      ensures pressed.Some? && pressed != Some(FileEntry) ==>
                oldCardStatus == old(oldCardStatus) && statusMessage == old(statusMessage)
                && displayTimeout == old(displayTimeout) && refreshInterval == old(refreshInterval)
      ensures pressed == Some(BackEntry) ==> !btn.updated && !enc.updated
      ensures pressed == Some(UpdirEntry) || pressed == Some(FolderEntry) ==>
                menuOffset == old(menuOffset) && btn.updated == old(btn.updated) && enc.updated == old(enc.updated)
      ensures pressed == Some(FileEntry) ==>
                enc.position == old(enc.position) && menuOffset == old(menuOffset)
                && !btn.updated && !enc.updated && oldCardStatus == cardInserted
                && statusMessage == SdfileMessage(old(statusMessage), statusMessageLevel, old(oldCardStatus) != cardInserted,
                                                  cardInserted, start.value.BadFilename?, cfg.lcdWidth)
                && displayTimeout == SdfileDeadline(old(displayTimeout), old(displayView), displayTimeoutBlocked,
                                                    start.value.BadFilename?, now, cfg.timeoutStatus)
                && refreshInterval == if start.value.BadFilename? && sdPrinting && old(refreshInterval) < now
                                      then now + cfg.refreshLimit else old(refreshInterval)
    {
      var clicked := btn.GetClicked();
      if !clicked {
        pressed, start := None, None;
        return;
      }
      var kind := press(selected);
      pressed, start := Some(kind), None;
      if kind == BackEntry {
        SetMenu(MainMenu);
      } else if kind == FileEntry {
        var outcome := ActionSdfile(longName, shortName, levelSensor, now, cardInserted, sdPrinting);
        start := Some(outcome);
      } else if !maxDirectoryReached {
        enc.position := 0;
      }
      displayRefreshMode := ClearAndUpdateScreen;
    }

    /** view_menu_sdcard: the input part, the drawing of the cache window (not modelled), then
        the click part on the entry just selected. */
    method ViewMenuSdcard(listLength: uint8, updateCachePosition: uint8 -> bool,
                          press: uint8 -> EntryType, maxDirectoryReached: bool,
                          longName: seq<bv8>, shortName: seq<bv8>, levelSensor: bool,
                          now: int, cardInserted: bool, sdPrinting: bool)
      returns (selected: uint8, pressed: Option<EntryType>, start: Option<SdfileOutcome>)
      requires Valid() && 0 in longName && 0 in shortName
      modifies this`oldCardStatus, this`statusMessage, this`displayRefreshMode, this`displayTimeout
      modifies this`displayViewNext, this`displayView, this`refreshInterval, this`menuOffset, this`itemSelected
      modifies enc`position, btn`updated, enc`updated, btn`clickedTriggered
      ensures Valid()
      ensures selected == ToUint8(CDiv(SdClamp(old(enc.position), listLength, cfg.stepsPerMenuItem), cfg.stepsPerMenuItem))
      ensures itemSelected == selected && (1 <= listLength ==> selected < listLength)
      ensures pressed == if old(btn.clickedTriggered) then Some(press(selected)) else None
      ensures start == if pressed == Some(FileEntry) then Some(SdfileResult(longName, shortName, levelSensor)) else None
      ensures pressed.None? ==>
                enc.position == SdClamp(old(enc.position), listLength, cfg.stepsPerMenuItem)
                && displayViewNext == old(displayViewNext)
                && displayRefreshMode == (if old(displayRefreshMode) == ClearAndUpdateScreen || updateCachePosition(selected)
                                          then NoUpdateScreen else old(displayRefreshMode))
      ensures pressed.Some? ==> displayRefreshMode == ClearAndUpdateScreen
      ensures pressed.None? ==>
                displayView == old(displayView) && menuOffset == old(menuOffset)
                && btn.updated == old(btn.updated) && enc.updated == old(enc.updated) && !btn.clickedTriggered
      ensures pressed != Some(FileEntry) ==>
                oldCardStatus == old(oldCardStatus) && statusMessage == old(statusMessage)
                && displayTimeout == old(displayTimeout) && refreshInterval == old(refreshInterval)
      ensures pressed == Some(BackEntry) ==>
                displayViewNext == MainMenu && menuOffset == 0 && enc.position == 0 && displayView == old(displayView)
                && !btn.updated && !enc.updated && !btn.clickedTriggered
      ensures pressed == Some(UpdirEntry) || pressed == Some(FolderEntry) ==>
                enc.position == (if maxDirectoryReached then SdClamp(old(enc.position), listLength, cfg.stepsPerMenuItem) else 0)
                && displayViewNext == old(displayViewNext) && displayView == old(displayView)
                && menuOffset == old(menuOffset) && btn.updated == old(btn.updated) && enc.updated == old(enc.updated)
                && !btn.clickedTriggered
      ensures pressed == Some(FileEntry) ==>
                displayView == StatusScreen && displayViewNext == StatusScreen
                && enc.position == SdClamp(old(enc.position), listLength, cfg.stepsPerMenuItem) && menuOffset == old(menuOffset)
                && !btn.updated && !enc.updated && !btn.clickedTriggered && oldCardStatus == cardInserted
                && statusMessage == SdfileMessage(old(statusMessage), statusMessageLevel, old(oldCardStatus) != cardInserted,
                                                  cardInserted, start.value.BadFilename?, cfg.lcdWidth)
                && displayTimeout == SdfileDeadline(old(displayTimeout), old(displayView), displayTimeoutBlocked,
                                                    start.value.BadFilename?, now, cfg.timeoutStatus)
                && refreshInterval == if start.value.BadFilename? && sdPrinting && old(refreshInterval) < now
                                      then now + cfg.refreshLimit else old(refreshInterval)
    {
      selected := SdcardSelect(listLength, updateCachePosition);
      pressed, start := SdcardPress(selected, press, maxDirectoryReached, longName, shortName, levelSensor,
                                    now, cardInserted, sdPrinting);
    }

    /** menu_action_sdfile on the selected entry's long and short names (both NUL-terminated).
        A long name with a byte above 127 is refused: the status line reports it, the status
        screen is installed and polled twice (forced, then not). Otherwise the hotend target
        is set, the print commands are queued and the status screen installed. */
    method ActionSdfile(longName: seq<bv8>, shortName: seq<bv8>, levelSensor: bool,
                        now: int, cardInserted: bool, sdPrinting: bool) returns (outcome: SdfileOutcome)
      requires Valid() && 0 in longName && 0 in shortName
      modifies this`oldCardStatus, this`statusMessage, this`displayRefreshMode, this`displayTimeout
      modifies this`displayViewNext, this`displayView, this`refreshInterval
      modifies btn`updated, enc`updated, btn`clickedTriggered
      ensures Valid()
      ensures outcome == SdfileResult(longName, shortName, levelSensor)
      ensures displayView == StatusScreen && displayViewNext == StatusScreen
      ensures oldCardStatus == cardInserted
      ensures !btn.updated && !enc.updated && !btn.clickedTriggered
      ensures old(oldCardStatus) == cardInserted ==>
                statusMessage == if outcome.BadFilename? && statusMessageLevel == 0
                                 then Truncated(MSG_SD_BAD_FILENAME, cfg.lcdWidth) else old(statusMessage)
      ensures statusMessage == SdfileMessage(old(statusMessage), statusMessageLevel, old(oldCardStatus) != cardInserted,
                                             cardInserted, outcome.BadFilename?, cfg.lcdWidth)
      ensures displayTimeout == SdfileDeadline(old(displayTimeout), old(displayView), displayTimeoutBlocked,
                                               outcome.BadFilename?, now, cfg.timeoutStatus)
      ensures refreshInterval == if outcome.BadFilename? && sdPrinting && old(refreshInterval) < now
                                 then now + cfg.refreshLimit else old(refreshInterval)
      ensures displayRefreshMode ==
                if old(displayView) != StatusScreen || old(oldCardStatus) != cardInserted then ClearAndUpdateScreen
                else old(displayRefreshMode)
    {
      var plain := FilenameIsPlain(longName);
      if !plain {
        SetStatus(MSG_SD_BAD_FILENAME);
        DrawStatusScreen(now, cardInserted, sdPrinting);
        var runView := Update(false, now, cardInserted, sdPrinting);
        outcome := BadFilename;
        return;
      }
      var cmd := BuildSelectCommand(shortName);
      var queued := [G28];
      if levelSensor {
        queued := queued + [G29];
      }
      queued := queued + [G1_Z10, cmd[..cmd.Length - 1], M24];
      outcome := Started(SD_PRINT_HOTEND, queued);
      DrawStatusScreen(now, cardInserted, sdPrinting);
    }
  }

  /** A line checked after the first END_MENU is never the line the first row showed: either
      the window slid down past it, or the row counter moved on by less than 256. */
  lemma LaterRowIsNotFirstRow(lineNr: uint8, d: int, restarted: bool, first: Window, last: Window,
                              steps: int, height: int)
    requires 1 <= steps && 1 <= height <= 255 && 0 <= d < height && !(d == 0 && !restarted)
    requires lineNr == ToUint8(last.offset + d) && lineNr == Selection(last.position, steps)
    requires restarted ==> Rewinds(last.position, first.offset, steps, height)
    requires !restarted ==> last.offset == first.offset
    ensures lineNr != first.offset
  {
    if !restarted && last.offset + d >= 0x100 {
      LowByteUnique(last.offset + d, last.offset + d - 0x100);
    }
  }

  /** `_lineNr = offset - 1` is the line that row 255 would show. */
  lemma RowRewind(offset: uint8)
    ensures ToUint8(offset - 1) == ToUint8(offset + 255)
  {
    LowByteUnique(offset + 255, ToUint8(offset - 1));
  }

  /** Incrementing both row counters keeps the row showing line `offset + row` (mod 256). */
  lemma RowAdvance(offset: uint8, row: uint8, lineNr: uint8)
    requires lineNr == ToUint8(offset + row)
    ensures ToUint8(lineNr + 1) == ToUint8(offset + ToUint8(row + 1))
  {
    ToUint8Succ(offset + row);
    if row == 255 {
      LowByteUnique(offset + 256, ToUint8(offset));
    }
  }

  /** The clamp target of a menu of at most 255 entries fits an int16. */
  lemma MenuFitsInt16(n: nat, steps: int)
    requires n <= 255 && 1 <= steps <= 128
    ensures n * steps <= 0x8000
  {
    MulMonotone(n, 255, steps);
    MulMonotone(steps, 128, 255);
  }

  /** menu_action_setting_edit_bool: the flag is toggled in place. */
  method ToggleBool(flag: BoolCell)
    modifies flag
    ensures flag.value == !old(flag.value)
  {
    flag.value := !flag.value;
  }

  // ---------------------------------------------------------------------------
  // Starting a print from the card

  /** The commands menu_action_sdfile queues for a file, in order: home, probe the bed (only
      in a build with a level sensor), lift, select the file by its short name in lower case,
      start the print. */
  function StartCommands(shortName: seq<bv8>, levelSensor: bool): (cmds: seq<seq<bv8>>)
    requires 0 in shortName
    ensures |cmds| == if levelSensor then 5 else 4
    ensures cmds[0] == G28 && cmds[|cmds| - 1] == M24
    ensures cmds[|cmds| - 2] == M23_PREFIX + LowerAll(UpToNul(shortName))
    ensures G29 in cmds <==> levelSensor
  {
    [G28] + (if levelSensor then [G29] else []) + [G1_Z10, M23_PREFIX + LowerAll(UpToNul(shortName)), M24]
  }

  /** What menu_action_sdfile does with a file: refuse it when its long name has a byte
      above 127, else heat the hotend to 200 and queue the start commands. */
  function SdfileResult(longName: seq<bv8>, shortName: seq<bv8>, levelSensor: bool): (r: SdfileOutcome)
    requires 0 in longName && 0 in shortName
    ensures r.BadFilename? <==> exists i :: 0 <= i < |UpToNul(longName)| && UpToNul(longName)[i] as int > 127
    ensures r.Started? ==> r.hotendTarget == SD_PRINT_HOTEND && r.commands == StartCommands(shortName, levelSensor)
  {
    if PlainName(longName) then Started(SD_PRINT_HOTEND, StartCommands(shortName, levelSensor)) else BadFilename
  }

  /** Short names that differ only in the case of their letters start the same print, and the
      selected name has no upper-case letters left. */
  lemma SelectCommandIgnoresCase(a: seq<bv8>, b: seq<bv8>, levelSensor: bool)
    requires 0 in a && 0 in b
    requires |UpToNul(a)| == |UpToNul(b)|
    requires forall i :: 0 <= i < |UpToNul(a)| ==> ToLower(UpToNul(a)[i]) == ToLower(UpToNul(b)[i])
    ensures StartCommands(a, levelSensor) == StartCommands(b, levelSensor)
    ensures var c := StartCommands(a, levelSensor)[|StartCommands(a, levelSensor)| - 2];
            forall i :: 4 <= i < |c| ==> !('A' as bv8 <= c[i] <= 'Z' as bv8)
  {
    assert LowerAll(UpToNul(a)) == LowerAll(UpToNul(b));
    LowerAllIsLower(UpToNul(a));
  }

  // ---------------------------------------------------------------------------
  // The editor session, end to end

  /** One edit as the source runs it: a menu at encoder position 8 opens the editor on a
      setting holding 5, one quadrature step forward turns it to 6, and a press of the knob
      commits. The setting is 6, but the encoder comes back at 6, not at the menu's 8: the
      press changes the port byte the encoder sampler compares, so the interrupt saved the
      low byte of the edited value in `prev_encoder_position` just before the click was
      latched. The editor also stays installed after the next poll: the commit reinstalls
      `display_view`, which by then is the editor itself. The editor is opened on an
      unblocked encoder, as it is when its entry fires below the top row of the menu: the
      first END_MENU has then re-enabled the encoder. */
  method EditSessionAsWritten() returns (view: View, position: int16, stored: int16)
    ensures stored == 6
    ensures view == EditInt3 && position == 6
  {
    var lcd := new Lcd(Config(1, 4, 20, 15000, 1000), ENCROT0, false, 0, []);
    var setting := new IntCell(5);
    OpenEditorAndStep(lcd, setting);
    PressKnob(lcd);
    lcd.EditInt3PollAsWritten(lcd.btn.clickedTriggered);
    PollAtZero(lcd);
    view, position, stored := lcd.displayView, lcd.enc.position, setting.value;
  }

  /** The same edit, pressed the same way, with the corrected editor: the setting is 6, and
      the menu comes back at its own position 8. */
  method EditSession() returns (view: View, position: int16, stored: int16)
    ensures stored == 6
    ensures view == MainMenu && position == 8
  {
    var lcd := new Lcd(Config(1, 4, 20, 15000, 1000), ENCROT0, false, 0, []);
    var setting := new IntCell(5);
    OpenEditorAndStep(lcd, setting);
    PressKnob(lcd);
    lcd.EditInt3Poll(lcd.btn.clickedTriggered);
    PollAtZero(lcd);
    view, position, stored := lcd.displayView, lcd.enc.position, setting.value;
  }

  /** The common start of both sessions: the main menu installed and polled with the cursor
      on position 8, the editor opened on `setting` with bounds 0..100 and polled into place,
      and one forward step sampled by the interrupt. */
  method OpenEditorAndStep(lcd: Lcd, setting: IntCell)
    requires lcd.Valid() && lcd.displayTimeout == 0 && !lcd.displayTimeoutBlocked
    requires !lcd.enc.blocked && lcd.enc.inputLast == ENCROT0 && setting.value == 5
    requires !lcd.btn.blocked && lcd.btn.inputLast == ENCROT0
    modifies lcd, lcd.enc, lcd.btn
    ensures lcd.Valid() && lcd.displayView == EditInt3 && lcd.displayViewNext == EditInt3
    ensures lcd.displayTimeout >= 0 && !lcd.displayTimeoutBlocked
    ensures lcd.editValue == setting && setting.value == 5 && lcd.minEditValue == 0 && lcd.maxEditValue == 100
    ensures lcd.editReturnView == MainMenu && lcd.editReturnPosition == 8
    ensures lcd.enc.position == 6 && lcd.enc.prevPosition == 5
    ensures !lcd.enc.blocked && lcd.enc.inputLast == ENCROT1
    ensures !lcd.btn.blocked && lcd.btn.inputLast == ENCROT0
  {
    InstallMainMenu(lcd);
    lcd.BeginEditInt3(setting, 0, 100);
    PollAtZero(lcd);
    DirectionTable(ENCROT0, ENCROT1);
    lcd.enc.Sample(ENCROT1);
  }

  /** The main menu installed by a poll at time 0, with the cursor put on position 8. */
  method InstallMainMenu(lcd: Lcd)
    requires lcd.Valid() && lcd.displayTimeout == 0 && !lcd.displayTimeoutBlocked
    requires !lcd.enc.blocked && lcd.enc.inputLast == ENCROT0
    requires !lcd.btn.blocked && lcd.btn.inputLast == ENCROT0
    modifies lcd, lcd.enc, lcd.btn
    ensures lcd.Valid() && lcd.displayViewNext == MainMenu
    ensures lcd.displayTimeout >= 0 && !lcd.displayTimeoutBlocked
    ensures !lcd.enc.blocked && lcd.enc.inputLast == ENCROT0 && lcd.enc.position == 8
    ensures !lcd.btn.blocked && lcd.btn.inputLast == ENCROT0
  {
    lcd.SetMenu(MainMenu);
    PollAtZero(lcd);
    lcd.SetEncoderPosition(8);
  }

  /** Pressing the knob on phase encrot1: the port byte gains EN_C. The encoder sampler runs
      first in the interrupt (and every fourth tick, so never later than the button sampler);
      it sees a changed byte with the same phase, so the counter stays and its low byte is
      saved in `prev_encoder_position`. The button sampler then latches the click. */
  method PressKnob(lcd: Lcd)
    requires lcd.Valid() && !lcd.enc.blocked && lcd.enc.inputLast == ENCROT1
    requires !lcd.btn.blocked && lcd.btn.inputLast == ENCROT0
    modifies lcd.enc, lcd.btn
    ensures lcd.enc.position == old(lcd.enc.position) && lcd.enc.prevPosition == ToUint8(old(lcd.enc.position))
    ensures lcd.btn.clickedTriggered
  {
    var press := ENCROT1 | EN_C;
    DirectionTable(ENCROT1, press);
    lcd.enc.Sample(press);
    var feedback, emergencyStop := lcd.btn.Sample(press);
  }

  /** A poll at time 0 with a non-negative deadline installs the next view. */
  method PollAtZero(lcd: Lcd)
    requires lcd.Valid() && lcd.displayTimeout >= 0
    modifies lcd`oldCardStatus, lcd`statusMessage, lcd`displayRefreshMode, lcd`displayTimeout
    modifies lcd`displayViewNext, lcd`displayView, lcd`refreshInterval
    modifies lcd.btn`updated, lcd.enc`updated, lcd.btn`clickedTriggered
    ensures lcd.Valid() && lcd.displayTimeout >= 0
    ensures lcd.displayView == old(lcd.displayViewNext) && lcd.displayViewNext == old(lcd.displayViewNext)
  {
    var runView := lcd.Update(false, 0, false, false);
  }
}
