/** The trail data form of the admin site: name, description and a score slider. Submit
    lists the required fields left empty, in a fixed order, and keeps what was typed; a
    complete submission is announced and the fields are cleared. */
module DataForm {
  import opened Common

  /** A JavaScript value held by the score state. */
  datatype Score = Num(value: real) | NaN | Null | Undefined

  /** `Number(e.target.value)`: `parsed` is the numeric reading of the input text, `None`
      when the text is not a number; an empty or all-blank text reads as 0, since
      `Number("")` is 0. */
  function ToNumber(parsed: Option<real>): (r: Score)
    ensures r.Num? || r.NaN?
    ensures parsed.Some? ==> r == Num(parsed.value)
    ensures parsed.None? ==> r == NaN
  {
    if parsed.Some? then Num(parsed.value) else NaN
  }

  /** `${score}`; `fmt` is JavaScript's number formatting, a parameter of the model. */
  function ScoreText(score: Score, fmt: real -> string): string
  {
    match score
    case Num(v) => fmt(v)
    case NaN => "NaN"
    case Null => "null"
    case Undefined => "undefined"
  }

  const InitialScore := Num(50.0)
  const ClearedScore := Num(0.0)

  /** The required fields, in the order a report lists them. */
  datatype Field = NameField | DescriptionField | ScoreField

  /** The word pushed for each field. */
  function Label(f: Field): string
  {
    match f
    case NameField => "Name"
    case DescriptionField => "Description"
    case ScoreField => "Score"
  }

  function Rank(f: Field): nat
  {
    match f
    case NameField => 0
    case DescriptionField => 1
    case ScoreField => 2
  }

  function Labels(fs: seq<Field>): (r: seq<string>)
    ensures |r| == |fs|
    ensures forall i :: 0 <= i < |fs| ==> r[i] == Label(fs[i])
  {
    if fs == [] then [] else [Label(fs[0])] + Labels(fs[1..])
  }

  /** The fields a submission reports as missing. */
  function MissingFields(name: string, description: string, score: Score): (r: seq<Field>)
    ensures NameField in r <==> IsBlank(JavaScript, name)
    ensures DescriptionField in r <==> IsBlank(JavaScript, description)
    ensures ScoreField in r <==> score.Null? || score.Undefined?
    ensures forall i, j :: 0 <= i < j < |r| ==> Rank(r[i]) < Rank(r[j])
  {
    (if IsBlank(JavaScript, name) then [NameField] else [])
    + (if IsBlank(JavaScript, description) then [DescriptionField] else [])
    + (if score.Null? || score.Undefined? then [ScoreField] else [])
  }

  /** A score read through `Number(...)` is never reported, so a submission goes through
      exactly when name and description hold something other than white space. */
  lemma ScoreNeverMissing(name: string, description: string, score: Score)
    requires score.Num? || score.NaN?
    ensures ScoreField !in MissingFields(name, description, score)
    ensures MissingFields(name, description, score) == [] <==> !IsBlank(JavaScript, name) && !IsBlank(JavaScript, description)
  {
    var r := MissingFields(name, description, score);
    if r != [] {
      assert r[0] in r;
    }
  }

  /** The successive pushes of `handleSubmit` (lines 12-16). */
  method CollectMissing(name: string, description: string, score: Score) returns (missing: seq<Field>)
    ensures missing == MissingFields(name, description, score)
  {
    missing := [];
    if TrimsToEmpty(name) {
      missing := missing + [NameField];
    }
    if TrimsToEmpty(description) {
      missing := missing + [DescriptionField];
    }
    if score.Null? || score.Undefined? {
      missing := missing + [ScoreField];
    }
  }

  function MissingAlert(missing: seq<Field>): string
  {
    "Please fill out the following field(s):\n- " + Join(Labels(missing), "\n- ")
  }

  function SubmittedAlert(name: string, description: string, score: Score, fmt: real -> string): string
  {
    "Everything submitted!\n\nName: " + name + "\nDescription: " + description + "\nScore: " + ScoreText(score, fmt)
  }

  class Form {
    var name: string
    var description: string
    var score: Score

    /** The score state only ever holds what `Number(...)` returns. */
    ghost predicate Valid()
      reads this
    {
      score.Num? || score.NaN?
    }

    constructor()
      ensures Valid()
      ensures name == "" && description == "" && score == InitialScore
    {
      name, description, score := "", "", InitialScore;
    }

    method SetName(value: string)
      requires Valid()
      modifies this
      ensures Valid()
      ensures name == value && description == old(description) && score == old(score)
    {
      name := value;
    }

    method SetDescription(value: string)
      requires Valid()
      modifies this
      ensures Valid()
      ensures description == value && name == old(name) && score == old(score)
    {
      description := value;
    }

    method SetScore(parsed: Option<real>)
      requires Valid()
      modifies this
      ensures Valid()
      ensures score == ToNumber(parsed) && name == old(name) && description == old(description)
    {
      score := ToNumber(parsed);
    }

    /** The reset button: empty texts and a score of 0, not the initial 50. */
    method Reset()
      requires Valid()
      modifies this
      ensures Valid()
      ensures name == "" && description == "" && score == ClearedScore
    {
      name, description, score := "", "", ClearedScore;
    }

    /** `handleSubmit`: with any field missing the form is left as it was, otherwise the
        submission is announced and the fields are cleared. */
    method HandleSubmit(fmt: real -> string) returns (missing: seq<Field>, alert: string)
      requires Valid()
      modifies this
      ensures Valid()
      ensures missing == MissingFields(old(name), old(description), old(score))
      ensures missing != [] ==> (alert == MissingAlert(missing)
        && name == old(name) && description == old(description) && score == old(score))
      ensures missing == [] ==> (alert == SubmittedAlert(old(name), old(description), old(score), fmt)
        && name == "" && description == "" && score == ClearedScore)
    {
      missing := CollectMissing(name, description, score);
      if |missing| > 0 {
        alert := MissingAlert(missing);
        return;
      }
      alert := SubmittedAlert(name, description, score, fmt);
      name, description, score := "", "", ClearedScore;
    }
  }
}
