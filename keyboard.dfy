/**
 * The keyboard path: read_i2c_kbd polls the keyboard controller over I2C
 * and decodes its 16-bit event word (with a sticky Ctrl state), and the
 * LVGL input driver's keypad_read turns key codes into LVGL keys, always
 * reporting a release after each press.
 */
module I2cKbd {

  /** The Pico SDK's error codes that read_i2c_kbd checks for. */
  const PICO_ERROR_GENERIC: int := -1
  const PICO_ERROR_TIMEOUT: int := -2

  /** Event words with a special meaning. */
  const CTRL_RELEASED_WORD: int := 0x7E03
  const CTRL_PRESSED_WORD: int := 0x7E02
  /** Low byte of a word that reports a key press. */
  const KEY_PRESSED_STATE: int := 1

  predicate IsI2cError(retval: int)
  {
    retval == PICO_ERROR_GENERIC || retval == PICO_ERROR_TIMEOUT
  }

  /** A decoded word: the returned code and the new Ctrl state. */
  datatype Decoded = Decoded(code: int, ctrlHeld: bool)

  /** What read_i2c_kbd returns for a non-error 16-bit word, and the Ctrl state after it. */
  function DecodeWord(word: int, ctrlHeld: bool): (d: Decoded)
    requires 0 <= word < 0x10000
    ensures -1 <= d.code <= 255
    ensures word == 0 ==> d == Decoded(0, ctrlHeld)
    ensures word == CTRL_RELEASED_WORD ==> d == Decoded(-1, false)
    ensures word == CTRL_PRESSED_WORD ==> d == Decoded(-1, true)
  {
    if word == 0 then Decoded(0, ctrlHeld)
    else if word == CTRL_RELEASED_WORD then Decoded(-1, false)
    else if word == CTRL_PRESSED_WORD then Decoded(-1, true)
    else if word % 256 == KEY_PRESSED_STATE then
      var c := word / 256;
      if 'a' as int <= c <= 'z' as int && ctrlHeld then Decoded(c - 'a' as int + 1, ctrlHeld)
      else Decoded(c, ctrlHeld)
    else Decoded(-1, ctrlHeld)
  }

  /**
   * A key-press word returns its high byte, turned into a control code 1..26
   * for a lower-case letter while Ctrl is held; any other word apart from
   * 0 and the two Ctrl words returns -1 and leaves Ctrl alone.
   */
  lemma DecodeKeyPress(word: int, ctrlHeld: bool)
    requires 0 < word < 0x10000 && word != CTRL_RELEASED_WORD && word != CTRL_PRESSED_WORD
    ensures DecodeWord(word, ctrlHeld).ctrlHeld == ctrlHeld
    ensures word % 256 != KEY_PRESSED_STATE ==> DecodeWord(word, ctrlHeld).code == -1
    ensures word % 256 == KEY_PRESSED_STATE && ctrlHeld && 'a' as int <= word / 256 <= 'z' as int ==>
              1 <= DecodeWord(word, ctrlHeld).code <= 26
              && DecodeWord(word, ctrlHeld).code + 'a' as int - 1 == word / 256
    ensures word % 256 == KEY_PRESSED_STATE && !(ctrlHeld && 'a' as int <= word / 256 <= 'z' as int) ==>
              DecodeWord(word, ctrlHeld).code == word / 256
  {
  }

  /** The keyboard driver's static state: whether it is set up and whether Ctrl is held. */
  class I2cKeyboard {
    var inited: bool
    var ctrlHeld: bool

    constructor ()
      ensures !inited && !ctrlHeld
    {
      inited := false;
      ctrlHeld := false;
    }

    /** init_i2c_kbd (the pin and bus set-up is hardware). */
    method Init()
      modifies this
      ensures inited && ctrlHeld == old(ctrlHeld)
    {
      inited := true;
    }

    /**
     * read_i2c_kbd. The two bus transfers are given by their return values,
     * and `word` is the 16-bit word the read transfer delivered.
     */
    method Read(writeResult: int, readResult: int, word: int) returns (c: int)
      requires 0 <= word < 0x10000
      modifies this
      ensures inited == old(inited)
      ensures !inited || IsI2cError(writeResult) || IsI2cError(readResult) ==>
                c == -1 && ctrlHeld == old(ctrlHeld)
      ensures inited && !IsI2cError(writeResult) && !IsI2cError(readResult) ==>
                Decoded(c, ctrlHeld) == DecodeWord(word, old(ctrlHeld))
    {
      if !inited {
        return -1;
      }
      if IsI2cError(writeResult) {
        return -1;
      }
      if IsI2cError(readResult) {
        return -1;
      }
      c := -1;
      if word != 0 {
        if word == CTRL_RELEASED_WORD {
          ctrlHeld := false;
        } else if word == CTRL_PRESSED_WORD {
          ctrlHeld := true;
        } else if word % 256 == KEY_PRESSED_STATE {
          c := word / 256;
          if 'a' as int <= c <= 'z' as int && ctrlHeld {
            c := c - 'a' as int + 1;
          }
        }
        return c;
      }
      return 0;
    }
  }
}

module Keypad {
  import opened I2cKbd

  /** LVGL's control key codes (lv_group.h). */
  const LV_KEY_UP: int := 17
  const LV_KEY_DOWN: int := 18
  const LV_KEY_RIGHT: int := 19
  const LV_KEY_LEFT: int := 20
  const LV_KEY_ESC: int := 27
  const LV_KEY_DEL: int := 127
  const LV_KEY_BACKSPACE: int := 8
  const LV_KEY_ENTER: int := 10
  const LV_KEY_NEXT: int := 9
  const LV_KEY_HOME: int := 2
  const LV_KEY_END: int := 3

  /** Codes the driver deliberately maps to no key: F1-F10, Caps, Brk, Insert, Ctrl, Alt, Shift. */
  const UNMAPPED_CODES: set<int> :=
    {0x81, 0x82, 0x83, 0x84, 0x85, 0x86, 0x87, 0x88, 0x89, 0x90,
     0xC1, 0xD0, 0xD1, 0xA5, 0xA1, 0xA2, 0xA3}

  /** Codes the driver turns into LVGL control keys. */
  const CONTROL_CODES: set<int> := {0xB5, 0xB6, 0xB4, 0xB7, 0xB1, 0x09, 0xD4, 0x08, 0xD2, 0xD5, 0x0D}

  /** keypad_get_key: a failed read (negative code) counts as no key. */
  function GetKey(code: int): (k: int)
    ensures k >= 0
    ensures code >= 0 ==> k == code
  {
    if code < 0 then 0 else code
  }

  /** The translation switch of keypad_read for a positive key code. */
  function TranslateKey(r: int): (k: int)
    ensures r in UNMAPPED_CODES ==> k == 0
    ensures r !in UNMAPPED_CODES && r !in CONTROL_CODES ==> k == r
    ensures r in CONTROL_CODES ==> k in {LV_KEY_UP, LV_KEY_DOWN, LV_KEY_LEFT, LV_KEY_RIGHT, LV_KEY_ESC,
                                         LV_KEY_NEXT, LV_KEY_DEL, LV_KEY_BACKSPACE, LV_KEY_HOME,
                                         LV_KEY_END, LV_KEY_ENTER}
  {
    match r
    case 0xB5 => LV_KEY_UP
    case 0xB6 => LV_KEY_DOWN
    case 0xB4 => LV_KEY_LEFT
    case 0xB7 => LV_KEY_RIGHT
    case 0x81 => 0
    case 0x82 => 0
    case 0x83 => 0
    case 0x84 => 0
    case 0x85 => 0
    case 0x86 => 0
    case 0x87 => 0
    case 0x88 => 0
    case 0x89 => 0
    case 0x90 => 0
    case 0xB1 => LV_KEY_ESC
    case 0x09 => LV_KEY_NEXT
    case 0xC1 => 0
    case 0xD4 => LV_KEY_DEL
    case 0x08 => LV_KEY_BACKSPACE
    case 0xD0 => 0
    case 0xD2 => LV_KEY_HOME
    case 0xD5 => LV_KEY_END
    case 0xD1 => 0
    case 0xA5 => 0
    case 0x0D => LV_KEY_ENTER
    case 0xA1 => 0
    case 0xA2 => 0
    case 0xA3 => 0
    case _ => r
  }

  /**
   * The translation in three parts: the eleven control keys, the seventeen
   * unmapped codes (key 0), and every other code, which passes through.
   */
  lemma TranslateKeyClasses(r: int)
    requires r > 0
    ensures r in UNMAPPED_CODES <==> TranslateKey(r) == 0
    ensures r !in UNMAPPED_CODES && r !in CONTROL_CODES ==> TranslateKey(r) == r
    ensures r == 0xB5 ==> TranslateKey(r) == LV_KEY_UP
    ensures r == 0xB6 ==> TranslateKey(r) == LV_KEY_DOWN
    ensures r == 0xB4 ==> TranslateKey(r) == LV_KEY_LEFT
    ensures r == 0xB7 ==> TranslateKey(r) == LV_KEY_RIGHT
    ensures r == 0xB1 ==> TranslateKey(r) == LV_KEY_ESC
    ensures r == 0x09 ==> TranslateKey(r) == LV_KEY_NEXT
    ensures r == 0xD4 ==> TranslateKey(r) == LV_KEY_DEL
    ensures r == 0x08 ==> TranslateKey(r) == LV_KEY_BACKSPACE
    ensures r == 0xD2 ==> TranslateKey(r) == LV_KEY_HOME
    ensures r == 0xD5 ==> TranslateKey(r) == LV_KEY_END
    ensures r == 0x0D ==> TranslateKey(r) == LV_KEY_ENTER
  {
  }

  datatype KeyState = Released | Pressed

  /** What keypad_read writes into the LVGL input data. */
  datatype KeyReport = KeyReport(state: KeyState, key: int)

  /** keypad_read's static variables. */
  class KeypadReader {
    var lastKey: int
    var pendingRelease: bool

    constructor ()
      ensures lastKey == 0 && !pendingRelease
    {
      lastKey := 0;
      pendingRelease := false;
    }

    /**
     * keypad_read: first the release owed for the previous press (without
     * touching the keyboard); otherwise one keyboard read, reported as a
     * press of the translated key, or as a release of key 0 when there is none.
     */
    method Read(kbd: I2cKeyboard, writeResult: int, readResult: int, word: int) returns (report: KeyReport)
      requires 0 <= word < 0x10000
      modifies this, kbd
      ensures kbd.inited == old(kbd.inited)
      ensures old(pendingRelease) ==>
                report == KeyReport(Released, old(lastKey)) && !pendingRelease
                && lastKey == old(lastKey) && kbd.ctrlHeld == old(kbd.ctrlHeld)
      ensures !old(pendingRelease) ==>
                kbd.ctrlHeld == if !old(kbd.inited) || IsI2cError(writeResult) || IsI2cError(readResult)
                                then old(kbd.ctrlHeld)
                                else DecodeWord(word, old(kbd.ctrlHeld)).ctrlHeld
      ensures report.state == Pressed <==> pendingRelease
      ensures report.state == Pressed ==> lastKey == report.key
      ensures !old(pendingRelease) && report.state == Released ==>
                report.key == 0 && lastKey == old(lastKey)
      ensures !old(pendingRelease) ==>
                var code := if !old(kbd.inited) || IsI2cError(writeResult) || IsI2cError(readResult) then -1
                            else DecodeWord(word, old(kbd.ctrlHeld)).code;
                report == if GetKey(code) > 0 then KeyReport(Pressed, TranslateKey(GetKey(code)))
                          else KeyReport(Released, 0)
    {
      if pendingRelease {
        pendingRelease := false;
        return KeyReport(Released, lastKey);
      }
      var code := kbd.Read(writeResult, readResult, word);
      var r := GetKey(code);
      if r > 0 {
        var actKey := TranslateKey(r);
        lastKey := actKey;
        pendingRelease := true;
        return KeyReport(Pressed, actKey);
      }
      return KeyReport(Released, 0);
    }
  }
}
