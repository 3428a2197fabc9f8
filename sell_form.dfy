/** The three-step sell form: the current step, the fields and the field errors,
    changed by the Next and Back buttons and by typing into the fields. */
module Wizard {
  import opened Plate
  import opened FormChecks

  /** `Math.min(2, s + 1)` */
  function Forward(s: nat): (r: nat)
    ensures s < 2 ==> r == s + 1
    ensures s >= 2 ==> r == 2
  {
    if s + 1 < 2 then s + 1 else 2
  }

  /** `Math.max(0, s - 1)` */
  function Backward(s: nat): (r: nat)
    ensures s > 0 ==> r + 1 == s
    ensures s == 0 ==> r == 0
  {
    if s == 0 then 0 else s - 1
  }

  /** The errors object after `delete next[k]` (unchanged when `k` has no error). */
  function Without(errs: seq<FieldName>, f: FieldName): (r: seq<FieldName>)
    ensures forall g :: g in r <==> g in errs && g != f
    ensures f !in errs ==> r == errs
    ensures NoDuplicates(errs) ==> NoDuplicates(r)
  {
    if errs == [] then []
    else
      var rest := Without(errs[1..], f);
      assert NoDuplicates(errs) ==> NoDuplicates(errs[1..]) && errs[0] !in errs[1..] by {
        if NoDuplicates(errs) {
          forall i, j | 0 <= i < j < |errs[1..]| ensures errs[1..][i] != errs[1..][j] {
            assert errs[1..][i] == errs[i + 1] && errs[1..][j] == errs[j + 1];
          }
          forall k | 0 <= k < |errs[1..]| ensures errs[1..][k] != errs[0] {
            assert errs[1..][k] == errs[k + 1];
          }
        }
      }
      (if errs[0] == f then [] else [errs[0]]) + rest
  }

  /** The fields whose inputs use the generic change handler. */
  predicate PlainInput(f: FieldName)
  {
    f.Brand? || f.Model? || f.ContactName? || f.ContactEmail? || f.ContactPhone?
  }

  /** `{ ...f, [k]: value }` for a field with the generic handler: field `k`
      holds the typed text and every other field is as it was. */
  function WithField(form: Form, f: FieldName, value: string): (r: Form)
    requires PlainInput(f)
    ensures FieldValue(r, f) == value
    ensures forall g :: g != f ==> FieldValue(r, g) == FieldValue(form, g)
  {
    match f
    case Brand => form.(brand := value)
    case Model => form.(model := value)
    case ContactName => form.(contactName := value)
    case ContactEmail => form.(contactEmail := value)
    case ContactPhone => form.(contactPhone := value)
  }

  class SellForm {
    var step: nat
    var form: Form
    var errors: seq<FieldName>

    /** The step is one of the three, and the errors object has each key once. */
    predicate Valid()
      reads this
    {
      step <= 2 && NoDuplicates(errors)
    }

    /** The page opens on the first step with an empty form and no errors. */
    constructor ()
      ensures Valid()
      ensures step == 0 && form == EmptyForm() && errors == []
    {
      step := 0;
      form := EmptyForm();
      errors := [];
    }

    /** `next()`: with errors on the current step they are shown and the step
        stays; otherwise the errors are cleared and the form moves on. */
    method Next()
      requires Valid()
      modifies this
      ensures Valid()
      ensures form == old(form)
      ensures ValidateStep(old(form), old(step)) != [] ==>
        errors == ValidateStep(old(form), old(step)) && step == old(step)
      ensures ValidateStep(old(form), old(step)) == [] ==>
        errors == [] && step == Forward(old(step))
      ensures step != old(step) ==> CanNext(old(form), old(step)) && step == old(step) + 1
      ensures old(step) < 2 && CanNext(old(form), old(step)) ==> step == old(step) + 1
    {
      ValidateMatchesCanNext(form, step);
      var errs := ValidateStep(form, step);
      if errs != [] {
        errors := errs;
        return;
      }
      errors := [];
      step := Forward(step);
    }

    /** `prev()`: one step back, never before the first; fields and errors stay. */
    method Prev()
      requires Valid()
      modifies this
      ensures Valid()
      ensures step == Backward(old(step))
      ensures form == old(form) && errors == old(errors)
    {
      step := Backward(step);
    }

    /** The generic `onChange(k)`: the field takes the typed text and its error,
        if it had one, is cleared. */
    method Edit(f: FieldName, value: string)
      requires Valid() && PlainInput(f)
      modifies this
      ensures Valid()
      ensures step == old(step)
      ensures form == WithField(old(form), f, value)
      ensures errors == Without(old(errors), f)
      ensures f !in errors
    {
      form := WithField(form, f, value);
      errors := Without(errors, f);
    }

    /** The registration input: upper case, only A-Z, Å, Ä, Ö and digits, at most
        six characters. Its error is not cleared. */
    method EditReg(value: string)
      requires Valid()
      modifies this
      ensures Valid()
      ensures step == old(step) && errors == old(errors)
      ensures form == old(form).(reg := Sanitize(value))
    {
      form := form.(reg := Sanitize(value));
    }

    /** The year input: its first four digits. Its error is not cleared. */
    method EditYear(value: string)
      requires Valid()
      modifies this
      ensures Valid()
      ensures step == old(step) && errors == old(errors)
      ensures form == old(form).(year := YearInput(value))
    {
      form := form.(year := YearInput(value));
    }

    /** The mileage input: its digits. Its error is not cleared. */
    method EditMileage(value: string)
      requires Valid()
      modifies this
      ensures Valid()
      ensures step == old(step) && errors == old(errors)
      ensures form == old(form).(mileage := MileageInput(value))
    {
      form := form.(mileage := MileageInput(value));
    }
  }

  /** Walking the form: from a fresh page, a first step whose checks pass leads
      to the second step, and the second step always leads to the third. */
  method Walk(reg: string, brand: string, model: string, year: string, mileage: string)
    returns (reached: nat)
    ensures CanNext(EmptyForm().(reg := Sanitize(reg), brand := brand, model := model,
                                 year := YearInput(year), mileage := MileageInput(mileage)), 0)
      <==> reached == 2
    ensures reached <= 2
  {
    var page := new SellForm();
    page.EditReg(reg);
    page.Edit(Brand, brand);
    page.Edit(Model, model);
    page.EditYear(year);
    page.EditMileage(mileage);
    page.Next();
    if page.step == 1 {
      page.Next();
    }
    reached := page.step;
  }
}
