/** Operations on sequences of words shared by the tokenizer and the dispatcher. */
module Words {

  /** The words laid end to end, with nothing between them. */
  function Concat(ws: seq<string>): string {
    if ws == [] then [] else Concat(ws[..|ws| - 1]) + ws[|ws| - 1]
  }

  /** The words with `sep` between each two neighbours (Rust's `join`). */
  function Join(ws: seq<string>, sep: string): string {
    if ws == [] then []
    else if |ws| == 1 then ws[0]
    else ws[0] + sep + Join(ws[1..], sep)
  }
}
