/** The parsing part of the plugin settings: the six marker strings and the
    deck a note goes to when its chunk names none. */
module Settings {

  datatype Config = Config(
    noteBeginning: string,      // a line equal to this opens a chunk
    noteEnding: string,         // a line equal to this closes it
    deckBeginning: string,      // a line starting with this names the deck
    defaultDeck: string,
    noteTypeBeginning: string,  // a line starting with this names the card type
    noteFrontBeginning: string, // inline or multiline front field
    noteBackBeginning: string   // inline or multiline back field
  )

  /** The shipped defaults. */
  const Default := Config(
    noteBeginning := "## Anki",
    noteEnding := "Anki End",
    deckBeginning := "Deck:",
    defaultDeck := "",
    noteTypeBeginning := "Card Type:",
    noteFrontBeginning := "Front:",
    noteBackBeginning := "Back:"
  )
}
