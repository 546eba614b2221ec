/** utils/duration.go: a track duration is an int64 number of seconds whose
    JSON form is the quoted text "<n> seconds". JSON text is modelled as a
    string of ASCII characters (one character per byte). */
module DurationCodec {
  import opened Wrappers
  import opened GoText

  /** ErrInvalidDurationFormat ("invalid duration format"). */
  datatype DurationError = InvalidDurationFormat

  const Unit := "seconds"

  lemma FormatIntPlain(x: int)
    ensures PlainText(FormatInt(x) + " " + Unit)
  {
    var s := FormatInt(x);
    if x < 0 {
      assert s == "-" + Digits(-x);
    }
    assert forall i :: 0 <= i < |s| ==> s[i] == '-' || IsDigit(s[i]);
  }

  /** MarshalJSON: the quoted text "<decimal d> seconds"; it has no error
      result. */
  function MarshalJSON(d: Int64): (r: string)
    ensures r == "\"" + FormatInt(d) + " seconds\""
  {
    FormatIntPlain(d);
    Quote(FormatInt(d) + " " + Unit)
  }

  /** The value UnmarshalJSON stores, or the error it reports: the input
      must unquote, split on ' ' into exactly two parts, the second being
      "seconds", and the first must parse as a base-10 int64. */
  function ParseDuration(json: string): (r: Result<Int64, DurationError>)
    ensures Unquote(json).None? ==> r == Err(InvalidDurationFormat)
  {
    match Unquote(json)
    case None => Err(InvalidDurationFormat)
    case Some(text) =>
      var parts := Split(text, ' ');
      if |parts| != 2 || parts[1] != Unit then Err(InvalidDurationFormat)
      else match ParseInt(parts[0])
        case None => Err(InvalidDurationFormat)
        case Some(i) => Ok(i)
  }

  /** What is accepted, read back from the result: the unquoted text is a
      space-free number in int64 range followed by " seconds". */
  lemma AcceptedShape(json: string)
    requires ParseDuration(json).Ok?
    ensures Unquote(json).Some?
    ensures var text := Unquote(json).value;
            var number := Split(text, ' ')[0];
            && text == number + " " + Unit
            && ' ' !in number
            && ParseInt(number) == Some(ParseDuration(json).value)
  {
    var text := Unquote(json).value;
    var parts := Split(text, ' ');
    SplitThenJoin(text, ' ');
    SplitPiecesFree(text, ' ');
    assert parts[0] in parts;
    assert parts[1..] == [Unit];
    assert Join(parts, ' ') == parts[0] + [' '] + Unit;
  }

  /** Conversely, every such text is accepted with that number. */
  lemma ShapeAccepted(json: string, number: string)
    requires Unquote(json) == Some(number + " " + Unit)
    requires ' ' !in number && ParseInt(number).Some?
    ensures ParseDuration(json) == Ok(ParseInt(number).value)
  {
    assert ' ' !in Unit;
    SplitTwo(number, Unit, ' ');
    assert number + " " + Unit == number + [' '] + Unit;
  }

  /** A text that is not two space-separated parts ending in "seconds" is
      rejected, whatever its number. */
  lemma WrongShapeRejected(json: string)
    requires Unquote(json).Some?
    requires var parts := Split(Unquote(json).value, ' ');
             |parts| != 2 || parts[1] != Unit
    ensures ParseDuration(json) == Err(InvalidDurationFormat)
  {
  }

  /** Unmarshalling what MarshalJSON produced restores the duration, for
      every int64. */
  lemma MarshalThenParse(d: Int64)
    ensures ParseDuration(MarshalJSON(d)) == Ok(d)
  {
    var number := FormatInt(d);
    FormatIntPlain(d);
    QuoteThenUnquote(number + " " + Unit);
    FormatThenParse(d);
    ShapeAccepted(MarshalJSON(d), number);
  }

  /** A Duration value that UnmarshalJSON decodes into in place (the
      `*Duration` receiver). */
  class Duration {
    var seconds: Int64

    constructor (d: Int64)
      ensures seconds == d
    {
      seconds := d;
    }

    /** UnmarshalJSON: each failed step returns ErrInvalidDurationFormat
        and leaves the receiver as it was; the receiver is written only
        once every step has succeeded. */
    method UnmarshalJSON(json: string) returns (err: Option<DurationError>)
      modifies this
      ensures err.None? <==> ParseDuration(json).Ok?
      ensures err.None? ==> seconds == ParseDuration(json).value
      ensures err.Some? ==> err.value == InvalidDurationFormat && seconds == old(seconds)
    {
      var unquoted := Unquote(json);
      if unquoted.None? {
        return Some(InvalidDurationFormat);
      }
      var parts := Split(unquoted.value, ' ');
      if |parts| != 2 || parts[1] != Unit {
        return Some(InvalidDurationFormat);
      }
      var i := ParseInt(parts[0]);
      if i.None? {
        return Some(InvalidDurationFormat);
      }
      seconds := i.value;
      return None;
    }
  }
}
