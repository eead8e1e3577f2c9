/**
 * The terminal styles the client renders text with. Each style is an
 * arbitrary string transformer: nothing in the model depends on what a
 * style does to its argument, only on where it is applied.
 */
module Styles {

  datatype Styles = Styles(
    keyword: string -> string,   // the looked-up word, and the word in status lines
    phonetic: string -> string,  // the phonetic transcription
    partOfSpeech: string -> string,  // the numbered part-of-speech header
    number: string -> string,    // the "j." marker of a definition
    example: string -> string,   // the example sentence with its bullet
    title: string -> string,     // the banner of a one-shot lookup
    panel: string -> string)     // the bordered panel around one-shot output
}
