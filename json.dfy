/** The part of Jackson's tree model (`JsonNode`) that the CEP providers'
    answers are read through: `has`, `get`, `path`, `asText`, `asBoolean`,
    `isArray`, `size` and `get(index)`. */
module Json {
  import opened Text

  /** A parsed JSON value. `JMissing` is Jackson's `MissingNode`, what `path`
      gives for an absent field and `readTree` gives for empty content. */
  datatype Json =
    | JObject(fields: map<string, Json>)
    | JArray(items: seq<Json>)
    | JText(text: string)
    | JBool(flag: bool)
    | JInt(number: int)
    | JNull
    | JMissing

  /** `node.has(name)`: only an object has fields; a field holding JSON
      `null` is present. */
  predicate Has(node: Json, name: string) {
    node.JObject? && name in node.fields
  }

  /** `node.get(name)` for a field that `has` reports present. */
  function Get(node: Json, name: string): (r: Json)
    requires Has(node, name)
    ensures r == node.fields[name]
  {
    node.fields[name]
  }

  /** `node.path(name)`: the field, or `MissingNode` when absent. */
  function Path(node: Json, name: string): (r: Json)
    ensures Has(node, name) ==> r == node.fields[name]
    ensures !Has(node, name) ==> r == JMissing
  {
    if Has(node, name) then node.fields[name] else JMissing
  }

  /** `asText()`: the text of a string node, the literal of a scalar, "null"
      for JSON null and "" for containers and missing nodes. */
  function AsText(node: Json): string {
    match node
    case JText(t) => t
    case JBool(b) => if b then "true" else "false"
    case JInt(n) => IntToText(n)
    case JNull => "null"
    case _ => ""
  }

  /** `asBoolean()`: a boolean node's value, a string node whose trimmed text
      is "true", a non-zero integer; false for everything else. */
  predicate AsBoolean(node: Json) {
    match node
    case JBool(b) => b
    case JText(t) => Trim(t) == "true"
    case JInt(n) => n != 0
    case _ => false
  }

  /** `String.trim()`: leading and trailing characters up to U+0020 removed. */
  function Trim(s: string): (r: string)
    ensures |r| <= |s|
    ensures r != [] ==> r[0] > ' ' && r[|r| - 1] > ' '
    decreases |s|
  {
    if s == [] then []
    else if s[0] <= ' ' then Trim(s[1..])
    else if s[|s| - 1] <= ' ' then Trim(s[..|s| - 1])
    else s
  }

  /** `trim()` removes exactly a leading and a trailing run of characters up
      to U+0020: the result is the slice `s[i..j]` between them. */
  lemma {:induction false} TrimIsASlice(s: string) returns (i: nat, j: nat)
    ensures i <= j <= |s| && Trim(s) == s[i..j]
    ensures forall k | 0 <= k < i :: s[k] <= ' '
    ensures forall k | j <= k < |s| :: s[k] <= ' '
    decreases |s|
  {
    if s == [] {
      i, j := 0, 0;
    } else if s[0] <= ' ' {
      var i', j' := TrimIsASlice(s[1..]);
      i, j := SliceAfterLeadingBlank(s, i', j');
    } else if s[|s| - 1] <= ' ' {
      i, j := TrimIsASlice(s[..|s| - 1]);
      SliceBeforeTrailingBlank(s, s[..|s| - 1], i, j);
    } else {
      i, j := 0, |s|;
    }
  }

  /** A slice of `s[1..]` bounded by blank runs, shifted by one, is such a
      slice of `s` when `s[0]` is blank too. */
  lemma SliceAfterLeadingBlank(s: string, i': nat, j': nat) returns (i: nat, j: nat)
    requires s != [] && s[0] <= ' '
    requires i' <= j' <= |s| - 1 && Trim(s[1..]) == s[1..][i'..j']
    requires forall k | 0 <= k < i' :: s[1..][k] <= ' '
    requires forall k | j' <= k < |s| - 1 :: s[1..][k] <= ' '
    ensures i <= j <= |s| && Trim(s) == s[i..j]
    ensures forall k | 0 <= k < i :: s[k] <= ' '
    ensures forall k | j <= k < |s| :: s[k] <= ' '
  {
    i, j := i' + 1, j' + 1;
    assert s[1..][i'..j'] == s[i..j];
    forall k | 0 <= k < i ensures s[k] <= ' ' {
      if k > 0 { assert s[k] == s[1..][k - 1]; }
    }
    forall k | j <= k < |s| ensures s[k] <= ' ' {
      assert s[k] == s[1..][k - 1];
    }
  }

  /** A slice of `init`, which is `s` without its last character, bounded
      by blank runs is such a slice of `s` when that last character is
      blank too; the leading run is empty, since `s` starts with a
      non-blank character. */
  lemma SliceBeforeTrailingBlank(s: string, init: string, i: nat, j: nat)
    requires s != [] && s[0] > ' ' && s[|s| - 1] <= ' ' && init == s[..|s| - 1]
    requires i <= j <= |init| && Trim(init) == init[i..j]
    requires forall k | 0 <= k < i :: init[k] <= ' '
    requires forall k | j <= k < |init| :: init[k] <= ' '
    ensures i == 0 && Trim(s) == s[i..j]
    ensures forall k | j <= k < |s| :: s[k] <= ' '
  {
    assert i == 0 by {
      assert init[0] == s[0];
    }
    assert init[i..j] == s[i..j];
    forall k | j <= k < |s| ensures s[k] <= ' ' {
      if k < |init| { assert s[k] == init[k]; }
    }
  }
}
