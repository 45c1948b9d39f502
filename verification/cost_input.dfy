/** Cleaning of the text typed into a cost field: thousands separators are dropped. */
module CostInput {
  import opened Wrappers

  /** Every ',' removed, every other character kept in order. */
  function StripCommas(s: string): (r: string)
    ensures ',' !in r
    ensures |r| <= |s|
    ensures forall c :: c != ',' ==> multiset(r)[c] == multiset(s)[c]
    ensures ',' !in s ==> r == s
  {
    if |s| == 0 then ""
    else
      assert s == [s[0]] + s[1..];
      (if s[0] == ',' then "" else [s[0]]) + StripCommas(s[1..])
  }

  /** Stripping keeps order: the commas of a concatenation are stripped part by part. */
  lemma {:induction false} StripCommasConcat(a: string, b: string)
    ensures StripCommas(a + b) == StripCommas(a) + StripCommas(b)
  {
    if |a| > 0 {
      assert (a + b)[0] == a[0];
      assert (a + b)[1..] == a[1..] + b;
      StripCommasConcat(a[1..], b);
    } else {
      assert a + b == b;
    }
  }

  /** The field value as a string without commas; `None` stands for `null` and `undefined`. */
  function ParseCostInput(value: Option<string>): (r: string)
    ensures value.None? || value == Some("") ==> r == ""
    ensures ',' !in r
    ensures value.Some? ==> forall c :: c != ',' ==> multiset(r)[c] == multiset(value.value)[c]
    ensures value.Some? && ',' !in value.value ==> r == value.value
  {
    match value
    case None => ""
    case Some(s) => if s == "" then "" else StripCommas(s)
  }

  /** Parsing an already parsed value changes nothing. */
  lemma ParseIsIdempotent(value: Option<string>)
    ensures ParseCostInput(Some(ParseCostInput(value))) == ParseCostInput(value)
  {
  }
}
