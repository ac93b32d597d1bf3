/** The search form's submit handler: the entered city is trimmed as
    `String.prototype.trim` does, a blank entry is refused with a message
    and no request, and any other entry is looked up in its trimmed form. */
module SearchForm {
  import opened Wrappers

  /** The message shown for a blank query. */
  const BlankQueryMessage: string := "Please enter a city."

  /** The ECMAScript WhiteSpace and LineTerminator code points, which are
      what `String.prototype.trim` strips: tab, vertical tab, form feed,
      space, no-break space, byte order mark, the other space separators
      (category Zs), and line feed, carriage return, line and paragraph
      separators. No printable ASCII character other than the space is
      among them, so the letters, digits and punctuation of a city name are
      never stripped; the zero-width space U+200B is not among them either. */
  predicate IsTrimmable(c: char): (b: bool)
    ensures c == ' ' || c == '\t' || c == '\n' || c == '\r' ==> b
    ensures '!' <= c <= '~' ==> !b
    ensures c == '\U{200B}' ==> !b
  {
    || c == '\t' || c == '\U{000B}' || c == '\U{000C}' || c == ' '
    || c == '\U{00A0}' || c == '\U{FEFF}'
    || c == '\U{1680}' || ('\U{2000}' <= c <= '\U{200A}')
    || c == '\U{202F}' || c == '\U{205F}' || c == '\U{3000}'
    || c == '\n' || c == '\r' || c == '\U{2028}' || c == '\U{2029}'
  }

  /** The characters of `s` from position `lo` up to (not including) `hi`
      are all whitespace. */
  predicate BlankBetween(s: string, lo: int, hi: int)
    requires 0 <= lo <= hi <= |s|
  {
    forall k :: lo <= k < hi ==> IsTrimmable(s[k])
  }

  /** Every character of `s` is whitespace (vacuously so for ""). */
  predicate Blank(s: string) {
    BlankBetween(s, 0, |s|)
  }

  /** The scan for the start of the text: the first non-whitespace position
      at or after `from`, or `|s|` if there is none. */
  function SkipLeading(s: string, from: nat): (a: nat)
    requires from <= |s|
    ensures from <= a <= |s|
    ensures BlankBetween(s, from, a)
    ensures a < |s| ==> !IsTrimmable(s[a])
    decreases |s| - from
  {
    if from < |s| && IsTrimmable(s[from]) then SkipLeading(s, from + 1) else from
  }

  /** The scan back for the end of the text: the position just after the
      last non-whitespace character before `hi`, or `lo` if everything from
      `lo` to `hi` is whitespace. */
  function SkipTrailing(s: string, lo: nat, hi: nat): (b: nat)
    requires lo <= hi <= |s|
    ensures lo <= b <= hi
    ensures BlankBetween(s, b, hi)
    ensures b > lo ==> !IsTrimmable(s[b - 1])
    decreases hi
  {
    if hi > lo && IsTrimmable(s[hi - 1]) then SkipTrailing(s, lo, hi - 1) else hi
  }

  /** `String.prototype.trim`: the text of `s` between its leading and
      trailing whitespace. */
  function Trim(s: string): (r: string)
    ensures |r| <= |s|
    ensures r == [] <==> Blank(s)
    ensures r != [] ==> !IsTrimmable(r[0]) && !IsTrimmable(r[|r| - 1])
  {
    var a := SkipLeading(s, 0);
    var b := SkipTrailing(s, a, |s|);
    assert a < |s| ==> !IsTrimmable(s[a]);
    s[a..b]
  }

  /** `Trim` removes nothing but whitespace: the result is a slice of the
      input with only whitespace before and after it. */
  lemma TrimKeepsMiddle(s: string)
    ensures exists i ::
      && 0 <= i <= i + |Trim(s)| <= |s| && Trim(s) == s[i..i + |Trim(s)|]
      && BlankBetween(s, 0, i) && BlankBetween(s, i + |Trim(s)|, |s|)
  {
    var a := SkipLeading(s, 0);
    var b := SkipTrailing(s, a, |s|);
    assert Trim(s) == s[a..b];
  }

  /** `Trim` cuts off exactly the surrounding whitespace: any non-empty
      slice `s[i..j]` with non-whitespace at both ends and only whitespace
      around it is the trimmed string. */
  lemma TrimIsTheCore(s: string, i: nat, j: nat)
    requires i < j <= |s|
    requires BlankBetween(s, 0, i) && BlankBetween(s, j, |s|)
    requires !IsTrimmable(s[i]) && !IsTrimmable(s[j - 1])
    ensures Trim(s) == s[i..j]
  {
    var a := SkipLeading(s, 0);
    assert a <= i;
    assert a == i;
    var b := SkipTrailing(s, a, |s|);
    assert j <= b;
    assert b == j;
  }

  /** Trimming twice is trimming once. */
  lemma TrimIdempotent(s: string)
    ensures Trim(Trim(s)) == Trim(s)
  {
    var r := Trim(s);
    if r != [] {
      TrimIsTheCore(r, 0, |r|);
    }
  }

  /** What a submission leads to: an error message and no request, or a
      weather request for the given city. */
  datatype Submission = Rejected(message: string) | Fetch(city: string)

  /** `handleSubmit`: the form's `search` field (absent reads as "") is
      trimmed; an empty result is refused with `BlankQueryMessage`,
      anything else is fetched in its trimmed form. */
  function HandleSubmit(field: Option<string>): (r: Submission)
    ensures r.Rejected? <==> Blank(field.GetOr(""))
    ensures r.Rejected? ==> r.message == BlankQueryMessage
    ensures r.Fetch? ==> r.city != [] && r.city == Trim(field.GetOr(""))
    ensures r.Fetch? ==> !IsTrimmable(r.city[0]) && !IsTrimmable(r.city[|r.city| - 1])
  {
    var city := Trim(field.GetOr(""));
    if city == [] then Rejected(BlankQueryMessage) else Fetch(city)
  }

  /** An absent field and a whitespace-only entry are both refused. */
  lemma AbsentOrBlankRejected(field: Option<string>)
    requires field.None? || Blank(field.value)
    ensures HandleSubmit(field) == Rejected(BlankQueryMessage)
  {
  }

  /** Resubmitting the city that was fetched fetches the same city again. */
  lemma FetchedCityResubmits(field: Option<string>)
    requires HandleSubmit(field).Fetch?
    ensures HandleSubmit(Some(HandleSubmit(field).city)) == HandleSubmit(field)
  {
    TrimIdempotent(field.GetOr(""));
  }
}
