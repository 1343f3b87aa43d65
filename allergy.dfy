/** The allergy record and its schema checks (src/models/allergy.py). */
module Allergies {
  import opened Wrappers
  import opened Tables

  datatype Allergy = Allergy(id: Id, name: string, severity: string, userId: Id, mealId: Id)

  /** The severity column's default. */
  const DefaultSeverity: string := "mild"

  /** The severities the schema accepts, in lower case. */
  const Severities: seq<string> := ["mild", "moderate", "severe"]

  /** Shortest allergy name the schema accepts. */
  const MinAllergyNameLength: nat := 2

  /** A freshly constructed allergy row; a severity that is not supplied
      falls back to the column default. */
  function NewAllergy(id: Id, name: string, severity: Option<string>, userId: Id, mealId: Id): (a: Allergy)
    ensures a.id == id && a.name == name && a.userId == userId && a.mealId == mealId
    ensures severity.None? ==> a.severity == DefaultSeverity
    ensures severity.Some? ==> a.severity == severity.value
  {
    Allergy(id, name, severity.GetOr(DefaultSeverity), userId, mealId)
  }

  /** The fields an allergy update may supply. The source sets whatever keys
      the request carries; the model accepts only these two, so an update
      can never move an allergy to another meal or owner. */
  datatype AllergyUpdate = AllergyUpdate(name: Option<string>, severity: Option<string>)

  /** The allergy with each supplied field replaced and everything else kept. */
  function ApplyAllergyUpdate(a: Allergy, update: AllergyUpdate): (r: Allergy)
    ensures r.id == a.id && r.userId == a.userId && r.mealId == a.mealId
    ensures r.name == (if update.name.Some? then update.name.value else a.name)
    ensures r.severity == (if update.severity.Some? then update.severity.value else a.severity)
  {
    a.(name := update.name.GetOr(a.name), severity := update.severity.GetOr(a.severity))
  }

  /** `AllergySchema.validate_name`: at least two characters. */
  predicate ValidAllergyName(name: string)
    ensures |name| < MinAllergyNameLength ==> !ValidAllergyName(name)
    ensures |name| >= MinAllergyNameLength ==> ValidAllergyName(name)
  {
    |name| >= MinAllergyNameLength
  }

  /** The validator rejects one-character names and accepts the one the
      API test creates. */
  lemma AllergyNameExamples()
    ensures !ValidAllergyName("") && !ValidAllergyName("P")
    ensures ValidAllergyName("Peanut Allergy")
  {
  }

  /** Lower-casing of one character. Only the ASCII letters are mapped. The
      only other character whose lower case contains a letter of the three
      accepted severities is U+0130, which lower-cases to two characters, so
      no string holding it lower-cases to one of the three words and the
      severity check decides the same. */
  function LowerChar(c: char): (r: char)
    ensures 'A' <= c <= 'Z' ==> 'a' <= r <= 'z' && r as int - c as int == 'a' as int - 'A' as int
    ensures !('A' <= c <= 'Z') ==> r == c
  {
    if 'A' <= c <= 'Z' then (c as int - 'A' as int + 'a' as int) as char else c
  }

  /** `str.lower` on ASCII letters. */
  function ToLower(s: string): (r: string)
    ensures |r| == |s|
    ensures forall i :: 0 <= i < |s| ==> r[i] == LowerChar(s[i])
  {
    seq(|s|, i requires 0 <= i < |s| => LowerChar(s[i]))
  }

  /** `AllergySchema.validate_severity`: the lower-cased value is one of the
      accepted severities. */
  predicate ValidSeverity(severity: string)
    ensures severity in Severities ==> ValidSeverity(severity)
    ensures ValidSeverity(severity) ==> |severity| == 4 || |severity| == 6 || |severity| == 8
  {
    assert ToLower("mild") == "mild" && ToLower("moderate") == "moderate" && ToLower("severe") == "severe";
    ToLower(severity) in Severities
  }

  /** Lower-casing twice is lower-casing once. */
  lemma {:induction false} ToLowerIdempotent(s: string)
    ensures ToLower(ToLower(s)) == ToLower(s)
  {
    var t := ToLower(s);
    forall i | 0 <= i < |s| ensures ToLower(t)[i] == t[i] {
      assert LowerChar(LowerChar(s[i])) == LowerChar(s[i]);
    }
  }

  /** The check ignores case: a value and its lower-cased form are accepted
      or rejected together. */
  lemma SeverityIgnoresCase(severity: string)
    ensures ValidSeverity(severity) <==> ValidSeverity(ToLower(severity))
  {
    ToLowerIdempotent(severity);
  }

  /** The default severity passes the check, a capitalised severity passes,
      and a value outside the three is refused. */
  lemma SeverityExamples()
    ensures ValidSeverity(DefaultSeverity)
    ensures ValidSeverity("Severe") && ValidSeverity("MODERATE")
    ensures !ValidSeverity("high")
  {
    assert ToLower(DefaultSeverity) == "mild";
    assert ToLower("Severe") == "severe";
    assert ToLower("MODERATE") == "moderate";
    var h := ToLower("high");
    assert h[0] == 'h';
  }
}
