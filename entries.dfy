/** The records the dictionary service returns, as the client decodes them from JSON. */
module Entries {

  datatype Phonetic = Phonetic(text: string, audio: string)

  /** One sense of a word; an absent example decodes to the empty string. */
  datatype Definition = Definition(definition: string, example: string)

  /** The senses of a word under one part of speech, in the service's order. */
  datatype Meaning = Meaning(partOfSpeech: string, definitions: seq<Definition>)

  /** One entry of the service's response array; an absent phonetic decodes to "". */
  datatype WordEntry = WordEntry(
    word: string,
    phonetic: string,
    phonetics: seq<Phonetic>,
    meanings: seq<Meaning>,
    sourceUrls: seq<string>)
}
