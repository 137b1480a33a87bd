/** The vocabulary of the view engine: which view routine is installed, how much of the
    screen the next call must redraw, the build-time configuration, and the menu entries. */
module Views {
  import opened Ints

  datatype Option<T> = None | Some(value: T)

  /** The view routines the core installs by name. Every other screen of the firmware
      (temperature pages, wizards, pictures) is an `Other` view. */
  datatype View =
    | NoView            // the NULL view lcd_init starts from
    | StatusScreen      // view_status_screen
    | MainMenu          // view_menu_main
    | SdcardMenu        // view_menu_sdcard
    | EditInt3          // menu_edit_int3
    | Other(id: nat)

  /** display_refresh_mode */
  datatype RefreshMode = NoUpdateScreen | UpdateScreen | ClearAndUpdateScreen

  /** The build-time constants the core depends on: ENCODER_STEPS_PER_MENU_ITEM, LCD_HEIGHT,
      LCD_WIDTH, LCD_TIMEOUT_STATUS and LCD_REFRESH_LIMIT (milliseconds). */
  datatype Config = Config(
    stepsPerMenuItem: int,
    lcdHeight: int,
    lcdWidth: int,
    timeoutStatus: int,
    refreshLimit: int)

  /** The ranges in which the macros compute without overflow: the clamp target
      `items * steps - 1` of a menu of up to 255 entries fits an int, and the row counter
      (a uint8_t) can reach the display height. */
  predicate ValidConfig(c: Config)
  {
    && 1 <= c.stepsPerMenuItem <= 128
    && 1 <= c.lcdHeight <= 255
    && 1 <= c.lcdWidth
    && 0 <= c.timeoutStatus
    && 0 <= c.refreshLimit
  }

  /** A boolean the bool editor toggles in place. */
  class BoolCell {
    var value: bool
    constructor (v: bool)
      ensures value == v
    {
      value := v;
    }
  }

  /** An `int` setting the integer editor writes back to. */
  class IntCell {
    var value: int16
    constructor (v: int16)
      ensures value == v
    {
      value := v;
    }
  }

  /** What `MENU_ITEM(type, ...)` does when its entry is clicked. Back and function entries
      call a routine of the firmware, named by a number here. */
  datatype MenuAction =
    | Back(routine: nat)
    | Submenu(target: View)
    | Wizard(target: View)
    | Function(routine: nat)
    | Gcode(command: seq<bv8>)
    | Text
    | EditBool(flag: BoolCell)
    | EditInt(setting: IntCell, minValue: int16, maxValue: int16)

  /** One line of a menu: `MENU_ITEM` or `MENU_ITEM_DUMMY`. */
  datatype MenuLine = Entry(action: MenuAction) | Dummy

  /** CacheEntryType_t of the SD browsing cache. */
  datatype EntryType = BackEntry | UpdirEntry | FolderEntry | FileEntry
}
