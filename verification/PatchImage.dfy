/** Exactly which hunk lists come out of the parser. */
module PatchImage {
  import opened Wrappers
  import opened Text
  import opened PatchText
  import opened PatchPrinter
  import opened PatchEnvelope
  import opened PatchRoundTrip
  import opened PatchFormat
  import opened CleanTokens

  /** Whatever was parsed is expressible. */
  lemma {:induction false} ParsedIsExpressible(input: string)
    requires Parse(input).Ok?
    ensures AllExpressible(Parse(input).value)
  {
    var lines := PatchLines(Trim(input));
    DropCrsOneLine(Split(Trim(input)));
    var enclosed := Enclosed(lines).value;
    assert AllOneLine(enclosed);
    LexClean(enclosed[1..|enclosed| - 1]);
    HunksExpressible(LexAll(enclosed[1..|enclosed| - 1]));
  }

  /** The text in which a list of hunks is printed. */
  function Printed(hs: seq<Hunk>): string {
    Rendered(Document(PatchBody(ScriptsOf(hs)), Unwrapped), true)
  }

  lemma {:induction false} PrintedParses(hs: seq<Hunk>)
    requires AllExpressible(hs)
    ensures Parse(Printed(hs)) == Ok(hs)
  {
    HunksWritable(hs);
    ParseUndoesPrint(ScriptsOf(hs), Unwrapped, "", "");
    assert "" + Printed(hs) + "" == Printed(hs);
  }

  /** A list of hunks is the parse of some text exactly when the format can express it. */
  lemma {:induction false} ParserImage(hs: seq<Hunk>)
    ensures (exists input: string :: Parse(input) == Ok(hs)) <==> AllExpressible(hs)
  {
    if input: string :| Parse(input) == Ok(hs) {
      ParsedIsExpressible(input);
    }
    if AllExpressible(hs) {
      PrintedParses(hs);
    }
  }

  /** Printing what was parsed and parsing again changes nothing. */
  lemma {:induction false} PrintIsNormalForm(input: string)
    requires Parse(input).Ok?
    ensures Parse(Printed(Parse(input).value)) == Parse(input)
  {
    ParsedIsExpressible(input);
    PrintedParses(Parse(input).value);
  }
}
