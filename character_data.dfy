/** The character-selection state (src/character/data.rs). */
module CharacterData {
  import opened PlayerData

  /** A selection button; it stands for exactly one class. */
  datatype CharacterSelectionButton = CharacterSelectionButton(choice: Class)

  /** The class the player picked for the next attempt. */
  class SelectedCharacter {
    var choice: Class

    /** The default selection is the knight. */
    constructor ()
      ensures choice == Knight
    {
      choice := Knight;
    }

    /** `set`: the stored class is the one given; whatever was stored before is forgotten. */
    method Set(c: Class)
      modifies this
      ensures choice == c
    {
      choice := c;
    }
  }

  /** Two selections in a row leave only the second. */
  method SelectTwice(selected: SelectedCharacter, a: Class, b: Class)
    modifies selected
    ensures selected.choice == b
  {
    selected.Set(a);
    selected.Set(b);
  }
}
