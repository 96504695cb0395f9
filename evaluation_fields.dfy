/** The base of an evaluation-form field type: how a field's configuration
    form is stored on its question, and how the question's input field is
    built with its validators. */
module EvaluationFields {
  import opened Wrappers

  /** The data of one configuration-form field. */
  datatype FormValue = Text(text: string) | Flag(flag: bool) | Number(number: int) | Items(items: seq<string>)

  /** The configuration fields stored directly on the question rather than in its `field_data`. */
  const CommonFields: set<string> := {"title", "description", "help", "is_required"}

  const CsrfToken: string := "csrf_token"

  /** The keyword `_make_wtforms_field` passes the question's description under. */
  const DescriptionKeyword: string := "description"

  /** A configuration form is an instance of `FieldConfigForm` or of a
      subclass: it has the four common fields with data of their kinds. */
  predicate IsConfigForm(form: map<string, FormValue>)
  {
    && "title" in form && form["title"].Text?
    && "description" in form && form["description"].Text?
    && "help" in form && form["help"].Text?
    && "is_required" in form && form["is_required"].Flag?
  }

  /** The part of the form stored on the question itself. */
  function CommonPart(form: map<string, FormValue>): (r: map<string, FormValue>)
    ensures r.Keys <= CommonFields
  {
    map k | k in form && k in CommonFields :: form[k]
  }

  /** `field_data`: the form fields that are neither common nor the CSRF token. */
  function FieldData(form: map<string, FormValue>): (r: map<string, FormValue>)
    ensures CsrfToken !in r
    ensures r.Keys !! CommonFields
  {
    map k | k in form && k !in CommonFields && k != CsrfToken :: form[k]
  }

  /** Every configuration field but the CSRF token is kept, either on the
      question or in `field_data`, never in both, and with its own data. */
  lemma ConfigSplitIsPartition(form: map<string, FormValue>)
    ensures CommonPart(form).Keys !! FieldData(form).Keys
    ensures CommonPart(form) + FieldData(form) == form - {CsrfToken}
  {
    var whole := CommonPart(form) + FieldData(form);
    var rest := form - {CsrfToken};
    assert whole.Keys == rest.Keys by {
      forall k ensures k in whole <==> k in rest {
        if k == CsrfToken {
          assert k !in CommonFields;
        }
      }
    }
  }

  /** A question of an evaluation form. */
  class EvaluationQuestion {
    var title: string
    var description: string
    var help: string
    var isRequired: bool
    var fieldType: string
    var fieldData: map<string, FormValue>

    constructor (title: string)
      ensures this.title == title && description == "" && help == "" && !isRequired
      ensures fieldType == "" && fieldData == map[]
    {
      this.title := title;
      description, help, isRequired := "", "", false;
      fieldType, fieldData := "", map[];
    }
  }

  /** A validator attached to an input field. */
  datatype Validator = DataRequired | OtherValidator(name: string)

  /** The validators of a question's input field: a copy of the given ones
      (none when no list is given), then `DataRequired` when the question
      is required. */
  function ValidatorsFor(given: seq<Validator>, isRequired: bool): (r: seq<Validator>)
    ensures |r| == |given| + (if isRequired then 1 else 0)
    ensures r[..|given|] == given
    ensures isRequired ==> r[|given|] == DataRequired
  {
    if isRequired then given + [DataRequired] else given
  }

  /** The input field requires a value exactly when the question is required
      or the caller already asked for one. */
  lemma ValidatorsRequireData(given: seq<Validator>, isRequired: bool)
    ensures DataRequired in ValidatorsFor(given, isRequired) <==> isRequired || DataRequired in given
  {
    var r := ValidatorsFor(given, isRequired);
    if DataRequired in given {
      var i :| 0 <= i < |given| && given[i] == DataRequired;
      assert r[..|given|][i] == DataRequired;
    }
  }

  /** A WTForms field instance: its class, label, validator list,
      description and the other keyword arguments. */
  datatype WtField = WtField(fieldClass: string, labelText: string, validators: array<Validator>,
                             description: string, kwargs: map<string, string>)

  /** A field type, bound to one question. */
  class EvaluationField {
    /** The unique name of the field type. */
    const name: string
    const question: EvaluationQuestion

    constructor (name: string, question: EvaluationQuestion)
      ensures this.name == name && this.question == question
    {
      this.name := name;
      this.question := question;
    }

    /** `save_config`: the common fields go onto the question, the field
        type becomes this type's name, and the remaining fields but the
        CSRF token become the question's `field_data`. */
    method SaveConfig(form: map<string, FormValue>)
      requires IsConfigForm(form)
      modifies question
      ensures question.title == form["title"].text
      ensures question.description == form["description"].text
      ensures question.help == form["help"].text
      ensures question.isRequired == form["is_required"].flag
      ensures question.fieldType == name
      ensures question.fieldData == FieldData(form)
      ensures CommonPart(form) == map["title" := Text(question.title), "description" := Text(question.description),
                                      "help" := Text(question.help), "is_required" := Flag(question.isRequired)]
    {
      question.title := form["title"].text;
      question.description := form["description"].text;
      question.help := form["help"].text;
      question.isRequired := form["is_required"].flag;
      question.fieldType := name;
      question.fieldData := FieldData(form);
    }

    /** `_make_wtforms_field`: the field is labelled with the question's title
        and described by its description; its validators are a fresh list,
        so the caller's list (`null` standing for `None`) is never changed.
        The description is passed by keyword next to `**kwargs`, so a
        `description` among the keyword arguments makes the call fail. */
    method MakeWtformsField(fieldClass: string, validators: array?<Validator>, kwargs: map<string, string>)
      returns (r: Result<WtField, string>)
      ensures r.Err? <==> DescriptionKeyword in kwargs
      ensures r.Ok? ==> fresh(r.value.validators)
      ensures r.Ok? ==>
        r.value.validators[..] == ValidatorsFor(if validators == null then [] else validators[..], question.isRequired)
      ensures r.Ok? ==> r.value.fieldClass == fieldClass && r.value.kwargs == kwargs
      ensures r.Ok? ==> r.value.labelText == question.title && r.value.description == question.description
    {
      var n := if validators == null then 0 else validators.Length;
      var copy := new Validator[n + (if question.isRequired then 1 else 0)](_ => DataRequired);
      for i := 0 to n
        invariant validators != null ==> copy[..i] == validators[..i]
      {
        copy[i] := validators[i];
      }
      if question.isRequired {
        copy[n] := DataRequired;
      }
      assert validators != null ==> validators[..n] == validators[..];
      assert copy[..] == copy[..n] + copy[n..];
      if DescriptionKeyword in kwargs {
        r := Err("got multiple values for keyword argument 'description'");
      } else {
        r := Ok(WtField(fieldClass, question.title, copy, question.description, kwargs));
      }
    }
  }
}
