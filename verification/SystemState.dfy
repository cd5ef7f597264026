/** src/system-state.c: the brightness of screen and keyboard, with one saved copy. The cached
    D-Bus properties are taken to be up to date when they are saved. */
module SystemStates {

  datatype Levels = Levels(screen: int, keyboard: int)

  datatype Display = Display(current: Levels, saved: Levels)

  class SystemState {
    var screenBrightness: int
    var keyboardBrightness: int
    var savedScreenBrightness: int
    var savedKeyboardBrightness: int

    function Value(): Display
      reads this
    {
      Display(Levels(screenBrightness, keyboardBrightness),
              Levels(savedScreenBrightness, savedKeyboardBrightness))
    }

    constructor (screen: int, keyboard: int)
      ensures Value() == Display(Levels(screen, keyboard), Levels(0, 0))
    {
      screenBrightness, keyboardBrightness := screen, keyboard;
      savedScreenBrightness, savedKeyboardBrightness := 0, 0;
    }

    method Save()
      modifies this
      ensures Value() == old(Value()).(saved := old(Value()).current)
    {
      savedScreenBrightness := screenBrightness;
      savedKeyboardBrightness := keyboardBrightness;
    }

    method SetBrightnesses(screen: int, keyboard: int)
      modifies this
      ensures Value() == old(Value()).(current := Levels(screen, keyboard))
    {
      screenBrightness := screen;
      keyboardBrightness := keyboard;
    }

    method Restore()
      modifies this
      ensures Value() == old(Value()).(current := old(Value()).saved)
    {
      SetBrightnesses(savedScreenBrightness, savedKeyboardBrightness);
    }
  }
}
