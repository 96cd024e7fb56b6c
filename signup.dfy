/** The sign-up page: a four-field form, a client-side check that the two
    passwords match, the registration request built from the form, and the
    error message shown when the server refuses, flattened from its error
    object. The fetch call is abstract: its outcome is a parameter. */
module SignupForm {
  import opened Wrappers
  import Text

  /** The form's field names, as the inputs' `name` attributes give them. */
  const FormFields: seq<string> := ["email", "full_name", "password", "confirmPassword"]

  /** `{ ...form, [name]: value }`: the named field takes the value and every
      other field keeps its own. */
  function WithField(form: map<string, string>, name: string, value: string): (r: map<string, string>)
    ensures r.Keys == form.Keys + {name}
    ensures r[name] == value
    ensures forall key :: key in form && key != name ==> r[key] == form[key]
  {
    form[name := value]
  }

  /** The JSON body posted to the registration endpoint. */
  datatype RegisterBody = RegisterBody(email: string, full_name: string, password: string, password2: string)

  /** The form copied into the request: `confirmPassword` is sent as
      `password2`. */
  function RequestBody(form: map<string, string>): (b: RegisterBody)
    requires forall f :: f in FormFields ==> f in form
    ensures b.email == form["email"] && b.full_name == form["full_name"]
    ensures b.password == form["password"] && b.password2 == form["confirmPassword"]
  {
    RegisterBody(form["email"], form["full_name"], form["password"], form["confirmPassword"])
  }

  /** The body reflects an edit of one field in that field alone, and an
      edit of a name outside the form not at all. */
  lemma RequestBodyAfterEdit(form: map<string, string>, name: string, value: string)
    requires forall f :: f in FormFields ==> f in form
    ensures name == "email" ==> RequestBody(WithField(form, name, value)) == RequestBody(form).(email := value)
    ensures name == "full_name" ==> RequestBody(WithField(form, name, value)) == RequestBody(form).(full_name := value)
    ensures name == "password" ==> RequestBody(WithField(form, name, value)) == RequestBody(form).(password := value)
    ensures name == "confirmPassword" ==>
      RequestBody(WithField(form, name, value)) == RequestBody(form).(password2 := value)
    ensures name !in FormFields ==> RequestBody(WithField(form, name, value)) == RequestBody(form)
  {
  }

  /** A value of the server's error object: a string, or a list of
      strings. */
  datatype ErrorValue = Single(text: string) | List(items: seq<string>)

  /** The error object's entries in key order. */
  type ErrorObject = seq<(string, ErrorValue)>

  /** What one value contributes to `flat()`: a string itself, a list its
      items. */
  function Messages(v: ErrorValue): (r: seq<string>)
    ensures v.Single? ==> r == [v.text]
    ensures v.List? ==> r == v.items
  {
    match v
    case Single(t) => [t]
    case List(items) => items
  }

  /** `Object.values(data).flat()`: the values in key order, lists spliced
      in one level deep. Every message comes from some entry. */
  function Flatten(data: ErrorObject): (r: seq<string>)
    ensures forall m :: m in r ==> exists i :: 0 <= i < |data| && m in Messages(data[i].1)
  {
    if data == [] then [] else Messages(data[0].1) + Flatten(data[1..])
  }

  /** Flattening respects concatenation of error objects. */
  lemma {:induction false} FlattenAppend(a: ErrorObject, b: ErrorObject)
    ensures Flatten(a + b) == Flatten(a) + Flatten(b)
  {
    if a != [] {
      assert (a + b)[0] == a[0];
      assert (a + b)[1..] == a[1..] + b;
      FlattenAppend(a[1..], b);
      calc {
        Flatten(a + b);
        Messages(a[0].1) + Flatten(a[1..] + b);
        Messages(a[0].1) + (Flatten(a[1..]) + Flatten(b));
        (Messages(a[0].1) + Flatten(a[1..])) + Flatten(b);
      }
    } else {
      assert a + b == b;
    }
  }

  /** The message shown for a refused registration: every flattened value,
      joined with single spaces. */
  function ErrorText(data: ErrorObject): (r: string)
    ensures Flatten(data) == [] ==> r == ""
    ensures |Flatten(data)| == 1 ==> r == Flatten(data)[0]
  {
    Text.Join(Flatten(data), " ")
  }

  /** The message for a larger error object is the messages for its parts,
      separated by one space, when both parts contribute something. */
  lemma ErrorTextAppend(a: ErrorObject, b: ErrorObject)
    requires Flatten(a) != [] && Flatten(b) != []
    ensures ErrorText(a + b) == ErrorText(a) + " " + ErrorText(b)
  {
    FlattenAppend(a, b);
    Text.JoinAppend(Flatten(a), Flatten(b), " ");
  }

  /** How the registration request ended: an ok response, a refusal with an
      error object, or an exception (no connection, or a body that is not
      JSON). */
  datatype SubmitResponse = Accepted | Refused(data: ErrorObject) | Unreachable

  const MismatchMessage: string := "Passwords do not match"
  const ConnectMessage: string := "Failed to connect to server"

  class Signup {
    var form: map<string, string>
    var error: string
    var showSuccess: bool

    /** Every input of the form has a field in the state. */
    ghost predicate Valid()
      reads this
    {
      forall f :: f in FormFields ==> f in form
    }

    constructor ()
      ensures Valid()
      ensures form == map["email" := "", "full_name" := "", "password" := "", "confirmPassword" := ""]
      ensures error == "" && !showSuccess
    {
      form := map["email" := "", "full_name" := "", "password" := "", "confirmPassword" := ""];
      error := "";
      showSuccess := false;
    }

    method HandleChange(name: string, value: string)
      requires Valid()
      modifies this
      ensures Valid()
      ensures form == WithField(old(form), name, value)
      ensures error == old(error) && showSuccess == old(showSuccess)
    {
      form := WithField(form, name, value);
    }

    /** A submit: the error is cleared; mismatched passwords stop here with
        their message and nothing is sent; otherwise the request is sent
        (and returned) and its outcome decides the success flag or the
        error. */
    method HandleSubmit(response: SubmitResponse) returns (sent: Option<RegisterBody>)
      requires Valid()
      modifies this
      ensures Valid() && form == old(form)
      ensures sent.None? <==> form["password"] != form["confirmPassword"]
      ensures sent.None? ==> error == MismatchMessage && showSuccess == old(showSuccess)
      ensures sent.Some? ==> sent.value == RequestBody(form)
      ensures sent.Some? && response.Accepted? ==> showSuccess && error == ""
      ensures sent.Some? && response.Refused? ==> error == ErrorText(response.data) && showSuccess == old(showSuccess)
      ensures sent.Some? && response.Unreachable? ==> error == ConnectMessage && showSuccess == old(showSuccess)
    {
      error := "";
      if form["password"] != form["confirmPassword"] {
        error := MismatchMessage;
        return None;
      }
      sent := Some(RequestBody(form));
      match response {
        case Accepted =>
          showSuccess := true;
        case Refused(data) =>
          error := ErrorText(data);
        case Unreachable =>
          error := ConnectMessage;
      }
    }
  }

  /** A refusal with two field errors, the first holding one message and
      the second two, shows the three messages joined with single spaces. */
  lemma TwoFieldRefusal(k1: string, k2: string, a: string, b: string, c: string)
    ensures ErrorText([(k1, List([a])), (k2, List([b, c]))]) == a + " " + b + " " + c
  {
    var data: ErrorObject := [(k1, List([a])), (k2, List([b, c]))];
    assert data[1..][1..] == [];
    assert Flatten(data[1..]) == [b, c] + [];
    assert Flatten(data) == [a] + [b, c];
    var parts := [a, b, c];
    assert [a] + [b, c] == parts;
    assert parts[1..] == [b, c];
    assert [b, c][1..] == [c];
    assert Text.Join([b, c], " ") == b + " " + c;
    assert Text.Join(parts, " ") == a + " " + (b + " " + c);
  }

  /** A single string value is shown as it is. */
  lemma SingleRefusal(k: string, m: string)
    ensures ErrorText([(k, Single(m))]) == m
  {
    var data: ErrorObject := [(k, Single(m))];
    assert data[1..] == [];
    assert Flatten(data) == [m] + [];
  }
}
