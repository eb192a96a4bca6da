/** `validateRecord` (scripts/validators.js): the ordered, short-circuiting field checks a record
    must pass before it is saved or an edit is stored. */
module Validators {
  import opened Seqs
  import opened Patterns
  import opened Records

  datatype Field = Description | Amount | Category | Date

  /** The order in which the checks run. */
  const CheckOrder: seq<Field> := [Description, Amount, Category, Date]

  /** Whether field `f` of `d` passes its own check. The date check only asks for a value. */
  predicate Passes(d: Record, f: Field) {
    match f
    case Description => DescriptionPattern(d.description)
    case Amount => AmountPattern(d.amount)
    case Category => CategoryPattern(d.category)
    case Date => d.date != ""
  }

  /** The one message reported for a failed check. */
  function Message(f: Field): string {
    match f
    case Description => "Invalid Description: Cannot be empty or start/end with whitespace."
    case Amount => "Invalid Amount: Must be a positive number with up to 2 decimal places."
    case Category => "Invalid Category: Only letters, spaces, and hyphens allowed."
    case Date => "Invalid Date: Please select a date."
  }

  /** The first check in `checks` that `d` fails, if any. */
  function FirstFailure(d: Record, checks: seq<Field>): (r: Option<nat>)
    ensures r.Some? ==> r.value < |checks| && !Passes(d, checks[r.value])
    ensures r.Some? ==> forall i :: 0 <= i < r.value ==> Passes(d, checks[i])
    ensures r.None? <==> forall i :: 0 <= i < |checks| ==> Passes(d, checks[i])
  {
    if checks == [] then None
    else if !Passes(d, checks[0]) then Some(0)
    else match FirstFailure(d, checks[1..])
      case None => None
      case Some(i) => Some(i + 1)
  }

  /** The outcome of validation: accepted, or rejected by exactly one check. */
  datatype Verdict = Accepted | Rejected(field: Field)

  /** `validateRecord`: the checks in order, stopping at the first failure. */
  function ValidateRecord(d: Record): (v: Verdict)
    ensures v == Accepted <==> forall f :: Passes(d, f)
    ensures v.Rejected? ==> !Passes(d, v.field)
  {
    if !Passes(d, Description) then Rejected(Description)
    else if !Passes(d, Amount) then Rejected(Amount)
    else if !Passes(d, Category) then Rejected(Category)
    else if !Passes(d, Date) then Rejected(Date)
    else Accepted
  }

  /** `validateRecord` rejects with the first failing check in the order description, amount,
      category, date, and accepts when there is none. */
  lemma {:induction false} ValidateIsFirstFailure(d: Record)
    ensures ValidateRecord(d) == match FirstFailure(d, CheckOrder)
                                 case None => Accepted
                                 case Some(i) => Rejected(CheckOrder[i])
  {
    var c := CheckOrder;
    assert c[1..] == [Amount, Category, Date] && c[2..] == [Category, Date] && c[3..] == [Date];
    assert c[1..][1..] == c[2..] && c[2..][1..] == c[3..] && c[3..][1..] == [];
    if Passes(d, Description) && Passes(d, Amount) && Passes(d, Category) && Passes(d, Date) {
      assert FirstFailure(d, c[3..]) == None;
      assert FirstFailure(d, c[2..]) == None;
      assert FirstFailure(d, c[1..]) == None;
    } else if Passes(d, Description) && Passes(d, Amount) && Passes(d, Category) {
      assert FirstFailure(d, c[3..]) == Some(0);
      assert FirstFailure(d, c[2..]) == Some(1);
      assert FirstFailure(d, c[1..]) == Some(2);
    } else if Passes(d, Description) && Passes(d, Amount) {
      assert FirstFailure(d, c[2..]) == Some(0);
      assert FirstFailure(d, c[1..]) == Some(1);
    } else if Passes(d, Description) {
      assert FirstFailure(d, c[1..]) == Some(0);
    }
  }

  /** A check is reached only when every earlier one passed: a rejection names the first failing
      field in the order description, amount, category, date. */
  lemma RejectionIsFirstFailure(d: Record, i: nat)
    requires i < |CheckOrder| && ValidateRecord(d) == Rejected(CheckOrder[i])
    ensures !Passes(d, CheckOrder[i])
    ensures forall j :: 0 <= j < i ==> Passes(d, CheckOrder[j])
  {
    ValidateIsFirstFailure(d);
    var r := FirstFailure(d, CheckOrder);
    assert r.Some?;
    assert CheckOrder[r.value] == CheckOrder[i];
    assert r.value == i;
  }

  /** " hi" is rejected for its description (leading space). */
  lemma LeadingSpaceRejected()
    ensures ValidateRecord(Record("1", " hi", "0", "Food", "2024-01-01")) == Rejected(Description)
  {
    DescriptionPatternIff(" hi");
  }

  /** "12.345" is rejected for its amount (three decimals). */
  lemma ThreeDecimalsRejected()
    ensures ValidateRecord(Record("1", "hi there", "12.345", "Food", "2024-01-01")) == Rejected(Amount)
  {
    DescriptionPatternIff("hi there");
    AmountRejectedExamples();
  }

  /** "Rent1" is rejected for its category (a digit). */
  lemma DigitInCategoryRejected()
    ensures ValidateRecord(Record("1", "hi there", "0", "Rent1", "2024-01-01")) == Rejected(Category)
  {
    DescriptionPatternIff("hi there");
    AmountAcceptedExamples();
    CategoryRejectedExamples();
  }

  /** "2024-13-01" passes: the date check only asks for a value, so a month 13 is not caught. */
  lemma AnyDateAccepted()
    ensures ValidateRecord(Record("1", "hi there", "0", "Rent-Utilities", "2024-13-01")) == Accepted
  {
    var d := Record("1", "hi there", "0", "Rent-Utilities", "2024-13-01");
    assert Passes(d, Description) by { DescriptionPatternIff(d.description); }
    assert Passes(d, Amount) by { AmountAcceptedExamples(); }
    assert Passes(d, Category) by { CategoryAcceptedExample(); }
    assert Passes(d, Date);
  }
}
