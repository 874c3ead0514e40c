/**
 * Change timestamps and the text form of the synchronisation cursor.
 *
 * A timestamp is a whole number of seconds since 1970-01-01 00:00 UTC. The
 * checkpoint stores the cursor as text: the loader writes `isoformat()` of the
 * last film's change time, the extractor falls back to the literal
 * `'1970-01-01'`, and Postgres parses whichever text it is handed when the
 * change-detection queries bind it.
 */
module Timestamps {
  import opened Wrappers
  import Text

  type Timestamp = nat

  /** The cursor the extractor uses when the checkpoint holds none. */
  const EPOCH_TEXT: string := "1970-01-01"

  /** The text the loader stores for a cursor (decimal seconds in this model). */
  function IsoFormat(t: Timestamp): string
  {
    Text.Render(t)
  }

  /** How the database reads cursor text; `None` is a text it refuses. */
  function ParseTimestamp(s: string): (r: Option<Timestamp>)
    ensures r.Some? <==> (s == EPOCH_TEXT || Text.IsNumeric(s))
    ensures s == EPOCH_TEXT ==> r == Some(0)
  {
    if s == EPOCH_TEXT then Some(0)
    else if Text.IsNumeric(s) then Some(Text.DecimalValue(s))
    else None
  }

  /** Whatever cursor the loader stores, the next extraction reads back the same instant. */
  lemma ParseIsoFormat(t: Timestamp)
    ensures ParseTimestamp(IsoFormat(t)) == Some(t)
  {
    Text.DecimalRender(t);
    assert !Text.IsDigit(EPOCH_TEXT[4]);
    assert IsoFormat(t) != EPOCH_TEXT;
  }
}
