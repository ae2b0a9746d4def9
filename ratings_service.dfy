/** `validate_json`: the required-fields check of a request body. */
module RatingsService {
  import opened Wrappers
  import opened JsonValues

  /**
   * The outcome of `validate_json`: nothing to report, the list of missing
   * fields (answered with 400), or a `TypeError` raised by the membership
   * test (Flask then answers 500).
   */
  datatype Validation = Passed | Missing(fields: seq<string>) | Raises

  /** Python's `needle in hay` on strings: `needle` occurs in `hay` at some position. */
  predicate IsSubstring(needle: string, hay: string) {
    needle <= hay || (hay != [] && IsSubstring(needle, hay[1..]))
  }

  /**
   * Python's `field in data`: key membership for an object, element
   * equality for an array, substring for a string; `None` when Python raises
   * a `TypeError` (null, numbers and booleans are not containers).
   */
  function Contains(data: Json, field: string): (r: Option<bool>)
    ensures r.None? <==> data.JNull? || data.JBool? || data.JInt? || data.JFloat?
  {
    match data
    case JObject(m) => Some(field in m)
    case JArray(items) => Some(JString(field) in items)
    case JString(s) => Some(IsSubstring(field, s))
    case _ => None
  }

  /** `[field for field in required_fields if field not in data]`, or `None` when a test raises. */
  function MissingFields(data: Json, required: seq<string>): (r: Option<seq<string>>)
    ensures r.Some? ==> |r.value| <= |required|
  {
    if required == [] then Some([])
    else match Contains(data, required[0])
      case None => None
      case Some(present) =>
        match MissingFields(data, required[1..])
        case None => None
        case Some(rest) => Some((if present then [] else [required[0]]) + rest)
  }

  /** `validate_json(data, required_fields)`. */
  function ValidateJson(data: Json, required: seq<string>): (v: Validation)
    ensures v.Missing? ==> v.fields != []
  {
    match MissingFields(data, required)
    case None => Raises
    case Some(missing) => if missing == [] then Passed else Missing(missing)
  }

  /**
   * The fields reported missing are exactly the required fields the body
   * lacks, in the order they are required; the check raises exactly when
   * there is a field to test and the body is not a container.
   */
  lemma {:induction false} MissingFieldsSpec(data: Json, required: seq<string>)
    ensures MissingFields(data, required).None? <==>
              required != [] && Contains(data, required[0]).None?
    ensures MissingFields(data, required).Some? ==>
      var m := MissingFields(data, required).value;
      && (forall f :: f in m <==> f in required && Contains(data, f) == Some(false))
      && (forall k | 0 <= k < |m| :: exists i | 0 <= i < |required| :: required[i] == m[k])
      && (m == [] <==> forall i | 0 <= i < |required| :: Contains(data, required[i]) == Some(true))
  {
    MissingMembers(data, required);
    MissingNone(data, required);
    var m := MissingFields(data, required);
    if m.Some? {
      forall k | 0 <= k < |m.value| ensures exists i | 0 <= i < |required| :: required[i] == m.value[k] {
        assert m.value[k] in required;
      }
    }
  }

  /** Which fields are reported, and when the check raises. */
  lemma {:induction false} MissingMembers(data: Json, required: seq<string>)
    ensures MissingFields(data, required).None? <==>
              required != [] && Contains(data, required[0]).None?
    ensures MissingFields(data, required).Some? ==>
      forall f :: f in MissingFields(data, required).value <==> f in required && Contains(data, f) == Some(false)
  {
    if required != [] {
      MissingMembers(data, required[1..]);
      if MissingFields(data, required).Some? {
        assert required == [required[0]] + required[1..];
      }
    }
  }

  /** Nothing is reported exactly when every required field is present. */
  lemma {:induction false} MissingNone(data: Json, required: seq<string>)
    ensures MissingFields(data, required).Some? ==>
      (MissingFields(data, required).value == [] <==> forall i | 0 <= i < |required| :: Contains(data, required[i]) == Some(true))
  {
    if required != [] {
      MissingNone(data, required[1..]);
      var m := MissingFields(data, required);
      if m.Some? {
        if forall i | 0 <= i < |required| :: Contains(data, required[i]) == Some(true) {
          assert forall i | 0 <= i < |required[1..]| :: Contains(data, required[1..][i]) == Some(true) by {
            forall i | 0 <= i < |required[1..]| ensures Contains(data, required[1..][i]) == Some(true) {
              assert required[1..][i] == required[i + 1];
            }
          }
        }
        if m.value == [] {
          forall i | 0 <= i < |required| ensures Contains(data, required[i]) == Some(true) {
            if i > 0 {
              assert required[i] == required[1..][i - 1];
            }
          }
        }
      }
    }
  }

  /**
   * For the handler's single required field "rating": an object passes
   * exactly when it has the key; an array when it holds the string
   * "rating"; a string when it contains "rating"; anything else raises.
   */
  lemma RatingFieldCheck(data: Json)
    ensures data.JObject? ==> (ValidateJson(data, ["rating"]) == Passed <==> "rating" in data.fields)
    ensures data.JObject? && "rating" !in data.fields ==> ValidateJson(data, ["rating"]) == Missing(["rating"])
    ensures data.JArray? ==> (ValidateJson(data, ["rating"]) == Passed <==> JString("rating") in data.items)
    ensures data.JString? ==> (ValidateJson(data, ["rating"]) == Passed <==> IsSubstring("rating", data.s))
    ensures ValidateJson(data, ["rating"]) == Raises <==> data.JNull? || data.JBool? || data.JInt? || data.JFloat?
  {
    var required := ["rating"];
    assert required[1..] == [];
    assert MissingFields(data, required[1..]) == Some([]);
    match Contains(data, "rating") {
      case None => assert MissingFields(data, required) == None;
      case Some(present) =>
        var head: seq<string> := if present then [] else ["rating"];
        assert head + [] == head;
        assert required[0] == "rating";
        assert MissingFields(data, required) == Some(head);
    }
  }
}
