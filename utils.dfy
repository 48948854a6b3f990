/**
 * The request validator of app/utils.py: which required field names are
 * absent from a payload, and the error message built from them.
 */
module Utils {
  import opened Wrappers
  import opened Catalog

  const MissingPrefix: string := "Missing required fields: "

  /** The names of `required` that are not keys of `data`, in the order of
      `required` and with its repetitions (built from the back, one name at a
      time, as the loop does). */
  function Missing(data: map<string, Value>, required: seq<string>): (r: seq<string>)
    ensures |r| <= |required|
    ensures forall f :: f in r ==> f in required && f !in data
  {
    if |required| == 0 then []
    else
      var last := required[|required| - 1];
      Missing(data, required[..|required| - 1]) + (if last in data then [] else [last])
  }

  /** Python's `sep.join(names)`. */
  function Join(names: seq<string>, sep: string): (r: string)
    ensures |names| == 0 ==> r == ""
    ensures |names| == 1 ==> r == names[0]
    ensures |names| > 0 ==> names[0] <= r
    ensures |names| > 1 ==> names[0] + sep <= r
    ensures |names| > 0 ==> |names[|names| - 1]| <= |r| && r[|r| - |names[|names| - 1]|..] == names[|names| - 1]
  {
    if |names| == 0 then ""
    else if |names| == 1 then names[0]
    else names[0] + sep + Join(names[1..], sep)
  }

  /** The pair `validate_required_fields` returns. */
  function Validate(data: map<string, Value>, required: seq<string>): (r: (bool, Option<string>))
    ensures r.0 <==> r.1.None?
    ensures r.0 <==> Missing(data, required) == []
  {
    var missing := Missing(data, required);
    if |missing| > 0 then (false, Some(MissingPrefix + Join(missing, ", ")))
    else (true, None)
  }

  /** `validate_required_fields`: collects the absent names in a loop, then
      succeeds with no message or fails with the joined names. */
  method ValidateRequiredFields(data: map<string, Value>, required: seq<string>)
    returns (ok: bool, message: Option<string>)
    ensures ok <==> forall i :: 0 <= i < |required| ==> required[i] in data
    ensures (ok, message) == Validate(data, required)
  {
    var missing: seq<string> := [];
    var i := 0;
    while i < |required|
      invariant 0 <= i <= |required|
      invariant missing == Missing(data, required[..i])
    {
      assert required[..i + 1][..i] == required[..i];
      if required[i] !in data {
        missing := missing + [required[i]];
      }
      i := i + 1;
    }
    assert required[..i] == required;
    MissingEmpty(data, required);
    if |missing| > 0 {
      return false, Some(MissingPrefix + Join(missing, ", "));
    }
    return true, None;
  }

  /** A name is reported exactly when it is required and absent. */
  lemma {:induction false} MissingMembers(data: map<string, Value>, required: seq<string>)
    ensures forall f :: f in Missing(data, required) <==> f in required && f !in data
  {
    if |required| > 0 {
      var init := required[..|required| - 1];
      MissingMembers(data, init);
      assert required == init + [required[|required| - 1]];
    }
  }

  /** Nothing is reported exactly when every required name is a key. */
  lemma {:induction false} MissingEmpty(data: map<string, Value>, required: seq<string>)
    ensures Missing(data, required) == [] <==> forall i :: 0 <= i < |required| ==> required[i] in data
  {
    MissingMembers(data, required);
    if Missing(data, required) != [] {
      assert Missing(data, required)[0] in Missing(data, required);
    }
  }

  /** Reported names keep the order of `required`. */
  lemma {:induction false} MissingConcat(data: map<string, Value>, a: seq<string>, b: seq<string>)
    ensures Missing(data, a + b) == Missing(data, a) + Missing(data, b)
    decreases |b|
  {
    if |b| == 0 {
      assert a + b == a;
    } else {
      var b' := b[..|b| - 1];
      assert (a + b)[..|a + b| - 1] == a + b';
      assert (a + b)[|a + b| - 1] == b[|b| - 1];
      MissingConcat(data, a, b');
    }
  }

  /** A required name listed n times is reported n times when absent, and
      never when present. */
  lemma {:induction false} MissingMultiplicity(data: map<string, Value>, required: seq<string>, f: string)
    ensures multiset(Missing(data, required))[f] == if f in data then 0 else multiset(required)[f]
  {
    if |required| > 0 {
      var init := required[..|required| - 1];
      MissingMultiplicity(data, init, f);
      assert required == init + [required[|required| - 1]];
    }
  }

  /** Adding keys to the payload only shrinks what is reported; a valid
      payload stays valid. */
  lemma {:induction false} MissingMonotone(data: map<string, Value>, more: map<string, Value>, required: seq<string>)
    requires data.Keys <= more.Keys
    ensures |Missing(more, required)| <= |Missing(data, required)|
    ensures Validate(data, required).0 ==> Validate(more, required).0
  {
    if |required| > 0 {
      MissingMonotone(data, more, required[..|required| - 1]);
    }
  }

  /** With no required names every payload is valid. */
  lemma ValidateNothingRequired(data: map<string, Value>)
    ensures Validate(data, []) == (true, None)
  {
  }

  /** Joining one more name appends the separator and that name, so the
      joined string is the names in order with the separator between each
      neighbouring pair. */
  lemma {:induction false} JoinAppend(a: seq<string>, x: string, sep: string)
    requires |a| > 0
    ensures Join(a + [x], sep) == Join(a, sep) + sep + x
    decreases |a|
  {
    if |a| == 1 {
      assert (a + [x])[1..] == [x];
    } else {
      assert (a + [x])[1..] == a[1..] + [x];
      JoinAppend(a[1..], x, sep);
    }
  }

  /** With "id" present and "name", "price" absent, exactly those two are listed. */
  lemma MissingTwo(data: map<string, Value>)
    requires "name" !in data && "price" !in data && "id" in data
    ensures Missing(data, ["id", "name", "price"]) == ["name", "price"]
  {
    assert ["id", "name", "price"][..2] == ["id", "name"];
    assert ["id", "name"][..1] == ["id"];
    assert ["id"][..0] == [];
    assert Missing(data, ["id"]) == [];
    assert Missing(data, ["id", "name"]) == ["name"];
  }

  /** The message for the two names "name" and "price". */
  lemma MessageTwo()
    ensures MissingPrefix + Join(["name", "price"], ", ") == "Missing required fields: name, price"
  {
    assert ["name", "price"][1..] == ["price"];
    assert Join(["name", "price"], ", ") == "name, price";
  }

  /** The message lists the absent names joined by ", ". */
  lemma ValidateTwoMissing(data: map<string, Value>)
    requires "name" !in data && "price" !in data && "id" in data
    ensures Validate(data, ["id", "name", "price"]) ==
      (false, Some("Missing required fields: name, price"))
  {
    MissingTwo(data);
    MessageTwo();
  }
}
