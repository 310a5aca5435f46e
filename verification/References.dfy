/**
 The textual references that stand for extracted documents, and the two patterns
 that read them back (src/common/identity/utils.js:21-28).
 */
module References {
  import opened Wrappers
  import opened Numerals
  import opened Json

  const REF_PREFIX := "#ref{document"
  const ID_PREFIX := "$document-"

  /** The characters `.` does not match. */
  predicate LineTerminator(c: char) {
    c == '\n' || c == '\r' || c == '\U{2028}' || c == '\U{2029}'
  }

  predicate EndsWith(s: string, suffix: string) {
    |suffix| <= |s| && s[|s| - |suffix|..] == suffix
  }

  /** Start of the longest all-digit suffix. */
  function DigitSuffix(s: string): (k: nat)
    ensures k <= |s|
    ensures IsNumeral(s[k..], 10)
    ensures k > 0 ==> !IsDigit(s[k - 1], 10)
  {
    if s == "" || !IsDigit(s[|s| - 1], 10) then |s|
    else
      var k := DigitSuffix(s[..|s| - 1]);
      assert s[k..] == s[..|s| - 1][k..] + [s[|s| - 1]];
      k
  }

  /** `s.match(prefix ++ /([0-9]+)$/)[1]`, for a prefix that does not end in a digit. */
  function TrailingNumber(s: string, prefix: string): Option<string> {
    var k := DigitSuffix(s);
    if k < |s| && EndsWith(s[..k], prefix) then Some(s[k..]) else None
  }

  /** `s.match(/#ref{(document[0-9]+).id}$/)`: the unescaped dot matches any character. */
  function TagReference(s: string): Option<string> {
    if |s| < 4 || s[|s| - 3..] != "id}" || LineTerminator(s[|s| - 4]) then None
    else match TrailingNumber(s[..|s| - 4], REF_PREFIX)
      case Some(digits) => Some("document" + digits)
      case None => None
  }

  /** `s.match(/\$document-([0-9]+)$/)` */
  function IdReference(s: string): Option<string> {
    TrailingNumber(s, ID_PREFIX)
  }

  /** What the transform looks documents up by: the captured group of the first pattern that matches. */
  function ReferenceKey(s: string): Option<string> {
    if TagReference(s).Some? then TagReference(s) else IdReference(s)
  }

  // What the patterns mean, stated without a matching procedure

  ghost predicate MatchesTrailing(s: string, prefix: string, digits: string) {
    digits != "" && IsNumeral(digits, 10) && exists pre: string :: s == pre + prefix + digits
  }

  ghost predicate MatchesTag(s: string, digits: string) {
    exists head: string, c: char ::
      !LineTerminator(c) && s == head + [c] + "id}" && MatchesTrailing(head, REF_PREFIX, digits)
  }

  lemma DigitSuffixUnique(s: string, k: nat)
    requires k <= |s| && IsNumeral(s[k..], 10)
    requires k > 0 ==> !IsDigit(s[k - 1], 10)
    ensures DigitSuffix(s) == k
  {
  }

  lemma TrailingNumberAgrees(s: string, prefix: string, digits: string)
    requires prefix != "" && !IsDigit(prefix[|prefix| - 1], 10)
    ensures TrailingNumber(s, prefix) == Some(digits) <==> MatchesTrailing(s, prefix, digits)
  {
    if TrailingNumber(s, prefix) == Some(digits) {
      FoundMatches(s, prefix, digits);
    }
    if MatchesTrailing(s, prefix, digits) {
      var pre :| s == pre + prefix + digits;
      MatchFound(pre, prefix, digits);
    }
  }

  lemma FoundMatches(s: string, prefix: string, digits: string)
    requires TrailingNumber(s, prefix) == Some(digits)
    ensures MatchesTrailing(s, prefix, digits)
  {
    SplitBefore(s, prefix, DigitSuffix(s));
  }

  lemma SplitBefore(s: string, prefix: string, k: nat)
    requires k <= |s| && EndsWith(s[..k], prefix)
    ensures s == s[..k - |prefix|] + prefix + s[k..]
  {
    assert s[..k] == s[..k - |prefix|] + prefix;
  }

  lemma MatchFound(pre: string, prefix: string, digits: string)
    requires prefix != "" && !IsDigit(prefix[|prefix| - 1], 10)
    requires digits != "" && IsNumeral(digits, 10)
    ensures TrailingNumber(pre + prefix + digits, prefix) == Some(digits)
  {
    var s, m := pre + prefix + digits, |pre| + |prefix|;
    assert s[m..] == digits;
    assert s[m - 1] == prefix[|prefix| - 1];
    DigitSuffixUnique(s, m);
    assert s[..m] == pre + prefix;
  }

  /** The reference key is exactly what the two regular expressions capture, the first one winning. */
  lemma ReferenceKeyIsTheMatch(s: string, key: string)
    ensures ReferenceKey(s) == Some(key) <==>
            (exists digits :: key == "document" + digits && MatchesTag(s, digits)) ||
            ((forall digits :: !MatchesTag(s, digits)) && MatchesTrailing(s, ID_PREFIX, key))
  {
    TrailingNumberAgrees(s, ID_PREFIX, key);
    forall digits
      ensures TagReference(s) == Some("document" + digits) <==> MatchesTag(s, digits)
    {
      TagReferenceAgrees(s, digits);
    }
    if TagReference(s).Some? {
      var digits := TrailingNumber(s[..|s| - 4], REF_PREFIX).value;
      assert TagReference(s) == Some("document" + digits);
      assert MatchesTag(s, digits);
    }
  }

  lemma TagReferenceAgrees(s: string, digits: string)
    ensures TagReference(s) == Some("document" + digits) <==> MatchesTag(s, digits)
  {
    if MatchesTag(s, digits) {
      var head: string, c: char :| !LineTerminator(c) && s == head + [c] + "id}" && MatchesTrailing(head, REF_PREFIX, digits);
      TagFound(head, c, digits);
    }
    if TagReference(s) == Some("document" + digits) {
      FoundTag(s, digits);
    }
  }

  lemma TagFound(head: string, c: char, digits: string)
    requires !LineTerminator(c) && MatchesTrailing(head, REF_PREFIX, digits)
    ensures TagReference(head + [c] + "id}") == Some("document" + digits)
  {
    var s := head + [c] + "id}";
    assert s[|s| - 3..] == "id}" && s[..|s| - 4] == head && s[|s| - 4] == c;
    TrailingNumberAgrees(head, REF_PREFIX, digits);
  }

  lemma FoundTag(s: string, digits: string)
    requires TagReference(s) == Some("document" + digits)
    ensures MatchesTag(s, digits)
  {
    var head, c := s[..|s| - 4], s[|s| - 4];
    var found := TrailingNumber(head, REF_PREFIX).value;
    assert ("document" + found)[8..] == found && ("document" + digits)[8..] == digits;
    FoundMatches(head, REF_PREFIX, digits);
    assert s == head + [c] + "id}";
  }

  // The references the normaliser prints

  /** `$document-${id}` */
  function SavedReference(id: Value): string {
    ID_PREFIX + Text(id)
  }

  /** `document${n}` */
  function FreshTag(n: nat): string {
    "document" + Dec(n)
  }

  /** `$document-#ref{document${n}.id}` */
  function FreshReference(n: nat): string {
    ID_PREFIX + "#ref{" + FreshTag(n) + ".id}"
  }

  lemma FreshReferenceKey(n: nat)
    ensures ReferenceKey(FreshReference(n)) == Some(FreshTag(n))
  {
    NumeralReadsBack(n, 10);
    var s, head := FreshReference(n), ID_PREFIX + REF_PREFIX + Dec(n);
    assert s == head + ['.'] + "id}";
    assert MatchesTrailing(head, REF_PREFIX, Dec(n));
    TagFound(head, '.', Dec(n));
  }

  lemma SavedReferenceKey(n: nat)
    ensures ReferenceKey(SavedReference(Num(n))) == Some(Dec(n))
  {
    NumeralReadsBack(n, 10);
    var s := SavedReference(Num(n));
    assert s == "" + ID_PREFIX + Dec(n);
    assert MatchesTrailing(s, ID_PREFIX, Dec(n));
    TrailingNumberAgrees(s, ID_PREFIX, Dec(n));
    assert s[|s| - 1] == Dec(n)[|Dec(n)| - 1];
    assert TagReference(s).None?;
  }
}
