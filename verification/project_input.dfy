/**
 * The accept/reject rule of the project input form (`gatherUserInput` in
 * src/app.ts): the three raw field strings are accepted only when none of
 * them is empty after trimming, and are then handed on as entered.
 */
module ProjectInput {
  import opened Wrappers
  import opened JsText
  import Validation

  /** The raw title, description and people strings of an accepted form. */
  datatype UserInput = UserInput(title: string, description: string, people: string)

  /** `gatherUserInput`: `None` stands for the rejected submission (the
      source raises an alert and returns nothing); an accepted one carries
      the fields untrimmed. The people field stays raw text. */
  function GatherUserInput(title: string, description: string, people: string): (r: Option<UserInput>)
    ensures r.Some? <==> HasContent(title) && HasContent(description) && HasContent(people)
    ensures r.Some? ==> r.value == UserInput(title, description, people)
  {
    TrimEmptyIffBlank(title);
    TrimEmptyIffBlank(description);
    TrimEmptyIffBlank(people);
    if Utf16Length(Trim(title)) == 0
       || Utf16Length(Trim(description)) == 0
       || Utf16Length(Trim(people)) == 0
    then None
    else Some(UserInput(title, description, people))
  }

  /** A record that only marks a string as required. */
  function RequiredText(s: string): Validation.Validatable {
    Validation.Unconstrained(Validation.Text(s)).(required := Some(true))
  }

  /** The form accepts exactly when each field, taken as a required string,
      passes the validator. */
  lemma GatherAgreesWithRequiredRule(title: string, description: string, people: string)
    ensures GatherUserInput(title, description, people).Some? <==>
      && Validation.Validate(RequiredText(title))
      && Validation.Validate(RequiredText(description))
      && Validation.Validate(RequiredText(people))
  {
    Validation.RequiredRejectsBlank(Validation.Text(title));
    Validation.RequiredRejectsBlank(Validation.Text(description));
    Validation.RequiredRejectsBlank(Validation.Text(people));
  }

  /** Surrounding white space never decides acceptance: trimming the fields
      first gives the same verdict. */
  lemma GatherIgnoresSurroundingWhitespace(title: string, description: string, people: string)
    ensures GatherUserInput(title, description, people).Some?
            == GatherUserInput(Trim(title), Trim(description), Trim(people)).Some?
  {
    TrimPreservesContent(title);
    TrimPreservesContent(description);
    TrimPreservesContent(people);
  }

  /** Concrete submissions: a complete form is accepted untouched, padding
      included; an empty or all-blank field rejects the whole form. */
  lemma GatherExamples()
    ensures GatherUserInput("Build an app", "desc", "1")
            == Some(UserInput("Build an app", "desc", "1"))
    ensures GatherUserInput(" Build an app ", "desc", "1")
            == Some(UserInput(" Build an app ", "desc", "1"))
    ensures GatherUserInput("", "desc", "1").None?
    ensures GatherUserInput("title", "   ", "1").None?
  {
    assert !IsWhitespace("Build an app"[0]);
    assert !IsWhitespace(" Build an app "[1]);
    assert !IsWhitespace("desc"[0]);
    assert !IsWhitespace("1"[0]);
    assert !IsWhitespace("title"[0]);
  }
}
