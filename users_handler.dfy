/** api/handler/users_handler.go: the message for each failed validation
    tag, and the field-to-message map CreateUser answers with. */
module UsersHandler {

  /** The part of a validator.FieldError the messages use. */
  datatype FieldError = FieldError(field: string, tag: string, param: string)

  /** getValidationMessage: a total switch on the tag; every tag gets a
      non-empty message, and "is invalid" is the message of exactly the
      tags the switch does not name. */
  function ValidationMessage(e: FieldError): (r: string)
    ensures |r| > 0
    ensures r == "is invalid" <==> e.tag !in ["required", "email", "min", "max"]
  {
    match e.tag
    case "required" => "is required"
    case "email" => "is not a valid email address"
    case "min" => "must be at least " + e.param + " characters long"
    case "max" => "must be at most " + e.param + " characters long"
    case _ => "is invalid"
  }

  /** The message of each known tag, with the tag's parameter for "min"
      and "max"; "is invalid" exactly for every other tag, so no tag is
      left without a message. */
  lemma ValidationMessageCases(e: FieldError)
    ensures e.tag == "required" ==> ValidationMessage(e) == "is required"
    ensures e.tag == "email" ==> ValidationMessage(e) == "is not a valid email address"
    ensures e.tag == "min" ==> ValidationMessage(e) == "must be at least " + e.param + " characters long"
    ensures e.tag == "max" ==> ValidationMessage(e) == "must be at most " + e.param + " characters long"
    ensures ValidationMessage(e) == "is invalid" <==> e.tag !in ["required", "email", "min", "max"]
  {
    var m := ValidationMessage(e);
    if e.tag == "min" {
      assert m[..5] == "must ";
    } else if e.tag == "max" {
      assert m[..5] == "must ";
    }
  }

  /** Among the first n errors, error k is the last one about its field. */
  ghost predicate LastBelow(errors: seq<FieldError>, k: int, n: int)
    requires 0 <= k < n <= |errors|
  {
    forall j :: k < j < n ==> errors[j].field != errors[k].field
  }

  /** The field names of the first n errors. */
  ghost function Fields(errors: seq<FieldError>, n: nat): set<string>
    requires n <= |errors|
  {
    if n == 0 then {} else Fields(errors, n - 1) + {errors[n - 1].field}
  }

  lemma {:induction false} FieldsAre(errors: seq<FieldError>, n: nat)
    requires n <= |errors|
    ensures Fields(errors, n) == set k | 0 <= k < n :: errors[k].field
  {
    if n > 0 {
      FieldsAre(errors, n - 1);
      assert (set k | 0 <= k < n :: errors[k].field) == (set k | 0 <= k < n - 1 :: errors[k].field) + {errors[n - 1].field};
    }
  }

  /** After the first n errors, with msgs[k] the message of error k: one
      key per field seen so far, holding the message of the last error
      about it. */
  ghost predicate ErrorMapAfter(errors: seq<FieldError>, msgs: seq<string>, n: nat, m: map<string, string>)
    requires n <= |errors| == |msgs|
  {
    && m.Keys == Fields(errors, n)
    && (forall k :: 0 <= k < n ==> errors[k].field in m)
    && (forall k :: 0 <= k < n && LastBelow(errors, k, n) ==> m[errors[k].field] == msgs[k])
  }

  /** Writing error i's message under its field extends the map of the
      first i errors to the map of the first i + 1. */
  lemma ErrorMapStep(errors: seq<FieldError>, msgs: seq<string>, i: nat, m: map<string, string>)
    requires i < |errors| == |msgs| && ErrorMapAfter(errors, msgs, i, m)
    ensures ErrorMapAfter(errors, msgs, i + 1, m[errors[i].field := msgs[i]])
  {
    var m' := m[errors[i].field := msgs[i]];
    forall k | 0 <= k < i + 1 && LastBelow(errors, k, i + 1)
      ensures m'[errors[k].field] == msgs[k]
    {
      if k < i {
        assert errors[i].field != errors[k].field;
        assert LastBelow(errors, k, i);
        assert m[errors[k].field] == msgs[k];
        assert m'[errors[k].field] == m[errors[k].field];
      }
    }
  }

  /** The errorMap loop: one key per distinct field name, holding the
      message of the last error about that field. */
  method BuildErrorMap(errors: seq<FieldError>) returns (m: map<string, string>)
    ensures m.Keys == set i | 0 <= i < |errors| :: errors[i].field
    ensures forall i :: 0 <= i < |errors| && LastBelow(errors, i, |errors|) ==>
              m[errors[i].field] == ValidationMessage(errors[i])
  {
    ghost var msgs := seq(|errors|, k requires 0 <= k < |errors| => ValidationMessage(errors[k]));
    m := map[];
    var i := 0;
    while i < |errors|
      invariant 0 <= i <= |errors|
      invariant ErrorMapAfter(errors, msgs, i, m)
    {
      ErrorMapStep(errors, msgs, i, m);
      m := m[errors[i].field := ValidationMessage(errors[i])];
      i := i + 1;
    }
    FieldsAre(errors, |errors|);
  }
}
