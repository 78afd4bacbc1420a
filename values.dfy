/** The cells a column can hold: the str tokens read from a file, or the int
    values a caller puts into a column of its own, such as the zeros of an
    empty column. */
module Values {
  import opened Errors
  import opened PyText

  datatype Value = Text(text: string) | Int(number: int)

  /** str(v): a token is written as it is, an int in decimal and read back
      by int() as the same number. */
  function Render(v: Value): (s: string)
    ensures v.Text? ==> s == v.text
    ensures v.Int? ==> s != [] && NoSpace(s) && ParseInt(s) == Some(v.number)
  {
    match v
    case Text(t) => t
    case Int(n) => ParseIntToStr(n); IntToStr(n)
  }

  /** A row of tokens as cells. */
  function Texts(tokens: seq<string>): (r: seq<Value>)
    ensures |r| == |tokens| && forall j :: 0 <= j < |r| ==> r[j] == Text(tokens[j])
  {
    seq(|tokens|, j requires 0 <= j < |tokens| => Text(tokens[j]))
  }

  /** [str(i) for i in column] */
  function RenderAll(cells: seq<Value>): (r: seq<string>)
    ensures |r| == |cells| && forall j :: 0 <= j < |r| ==> r[j] == Render(cells[j])
  {
    seq(|cells|, j requires 0 <= j < |cells| => Render(cells[j]))
  }

  /** Rendering token cells gives the tokens back. */
  lemma RenderTexts(tokens: seq<string>)
    ensures RenderAll(Texts(tokens)) == tokens
  {
  }
}
