/** The identifier normaliser `get_id_short`: turns an arbitrary key into an
    idShort candidate by dropping characters outside [A-Za-z0-9_] and then
    either prefixing the enclosing key or stripping leading non-letters. */
module IdShort {
  import opened Common

  predicate IsLetter(c: char) {
    'a' <= c <= 'z' || 'A' <= c <= 'Z'
  }

  predicate IsDigit(c: char) {
    '0' <= c <= '9'
  }

  /** The character class [a-zA-Z0-9_]. */
  predicate IsIdChar(c: char) {
    IsLetter(c) || IsDigit(c) || c == '_'
  }

  predicate AllIdChars(s: string) {
    forall i :: 0 <= i < |s| ==> IsIdChar(s[i])
  }

  predicate NoLetter(s: string) {
    forall i :: 0 <= i < |s| ==> !IsLetter(s[i])
  }

  /** The idShort grammar the element library enforces: a letter followed by
      letters, digits and underscores. */
  predicate ValidIdShort(s: string) {
    |s| > 0 && IsLetter(s[0]) && AllIdChars(s)
  }

  /** A normalised id with an empty prefix: legal, or empty (meaning "drop"). */
  predicate ValidOrEmpty(s: string) {
    s == "" || ValidIdShort(s)
  }

  /** Removes every character outside [a-zA-Z0-9_], keeping the order of the rest. */
  function Sanitize(s: string): (r: string)
    ensures AllIdChars(r)
    ensures |r| <= |s|
    ensures AllIdChars(s) ==> r == s
  {
    if s == [] then []
    else if IsIdChar(s[0]) then [s[0]] + Sanitize(s[1..])
    else Sanitize(s[1..])
  }

  /** `r` is what is left of `s` after dropping a prefix without letters. */
  predicate StrippedFrom(r: string, s: string) {
    |r| <= |s| && r == s[|s| - |r|..] && NoLetter(s[..|s| - |r|])
  }

  /** Sanitising keeps exactly the characters of the class [a-zA-Z0-9_]. */
  lemma {:induction false} SanitizeKeepsIdChars(s: string)
    ensures forall c :: c in Sanitize(s) <==> c in s && IsIdChar(c)
  {
    if s != [] {
      SanitizeKeepsIdChars(s[1..]);
      assert s == [s[0]] + s[1..];
    }
  }

  /** Removes the longest prefix of non-letters. */
  function StripLeadingNonLetters(s: string): (r: string)
    ensures StrippedFrom(r, s)
    ensures r == [] || IsLetter(r[0])
    ensures (s == [] || IsLetter(s[0])) ==> r == s
  {
    if s == [] || IsLetter(s[0]) then s
    else
      var t := s[1..];
      var r := StripLeadingNonLetters(t);
      var n := |s| - |r|;
      assert r == s[n..] by { assert t[|t| - |r|..] == s[n..]; }
      assert NoLetter(s[..n]) by {
        forall i | 0 <= i < n ensures !IsLetter(s[..n][i]) {
          if i > 0 { assert s[..n][i] == t[..|t| - |r|][i - 1]; }
        }
      }
      r
  }

  /** `get_id_short` on a present key with a present (possibly empty) prefix. */
  function Normalize(key: string, prefix: string): (r: string)
    // with no prefix the result is a legal idShort or empty
    ensures prefix == "" ==> ValidOrEmpty(r)
    // an already letter-led sanitised key is kept as is, whatever the prefix
    ensures |Sanitize(key)| > 0 && IsLetter(Sanitize(key)[0]) ==> r == Sanitize(key)
    // a non-letter-led sanitised key is prefixed with the raw, unsanitised prefix
    ensures |Sanitize(key)| > 0 && !IsLetter(Sanitize(key)[0]) && prefix != "" ==>
              r == prefix + "_" + Sanitize(key)
    // otherwise the result is the sanitised key without its leading non-letters
    ensures prefix == "" || Sanitize(key) == "" || IsLetter(Sanitize(key)[0]) ==>
              StrippedFrom(r, Sanitize(key))
    // the result is empty exactly when nothing letter-led survives and no prefix applies
    ensures r == "" <==> NoLetter(Sanitize(key)) && (prefix == "" || Sanitize(key) == "")
  {
    var clean := Sanitize(key);
    if |clean| > 0 && !IsLetter(clean[0]) && |prefix| > 0 then
      prefix + "_" + clean
    else
      StripFacts(clean);
      assert NoLetter(clean) && clean != "" ==> prefix == "" by {
        if NoLetter(clean) && clean != "" { assert !IsLetter(clean[0]); }
      }
      StripLeadingNonLetters(clean)
  }

  /** What `Normalize` needs of the stripped text: it is empty exactly when no
      letter occurs, and a legal idShort otherwise. */
  lemma StripFacts(s: string)
    requires AllIdChars(s)
    ensures StripLeadingNonLetters(s) == "" <==> NoLetter(s)
    ensures ValidOrEmpty(StripLeadingNonLetters(s))
  {
    var r := StripLeadingNonLetters(s);
    assert r == "" ==> s == s[..|s| - |r|];
    if r != "" {
      assert !NoLetter(s) by { assert s[|s| - |r|] == r[0]; }
      assert forall i :: 0 <= i < |r| ==> r[i] == s[|s| - |r| + i];
    }
  }

  /** `get_id_short(id_short, level_key)`: a missing key stays missing, and a
      missing prefix behaves as the empty prefix. */
  function GetIdShort(idShort: Option<string>, levelKey: Option<string>): (r: Option<string>)
    ensures r.None? <==> idShort.None?
    ensures idShort.Some? && levelKey.None? ==> r == Some(Normalize(idShort.value, ""))
    ensures idShort.Some? && levelKey.Some? ==> r == Some(Normalize(idShort.value, levelKey.value))
  {
    match idShort
    case None => None
    case Some(key) =>
      var prefix := if levelKey.None? then "" else levelKey.value;
      Some(Normalize(key, prefix))
  }

  /** A key that is already a legal idShort is returned unchanged, whatever the prefix. */
  lemma NormalizeKeepsValid(key: string, prefix: string)
    requires ValidIdShort(key)
    ensures Normalize(key, prefix) == key
  {
  }

  /** With an empty prefix, normalising is idempotent. */
  lemma NormalizeIdempotent(key: string)
    ensures Normalize(Normalize(key, ""), "") == Normalize(key, "")
  {
    var once := Normalize(key, "");
    assert AllIdChars(once);
    assert Sanitize(once) == once;
  }

  /** Sanitising distributes over concatenation. */
  lemma {:induction false} SanitizeAppend(a: string, b: string)
    ensures Sanitize(a + b) == Sanitize(a) + Sanitize(b)
  {
    if a == [] {
      assert a + b == b;
    } else {
      assert (a + b)[0] == a[0];
      assert (a + b)[1..] == a[1..] + b;
      SanitizeAppend(a[1..], b);
    }
  }

  /** With a non-empty prefix, a key whose sanitised form is non-empty and not
      letter-led yields a legal idShort exactly when the raw prefix is one. */
  lemma PrefixedValidIffPrefixValid(key: string, prefix: string)
    requires |Sanitize(key)| > 0 && !IsLetter(Sanitize(key)[0]) && prefix != ""
    ensures ValidIdShort(Normalize(key, prefix)) <==> ValidIdShort(prefix)
  {
    var r := Normalize(key, prefix);
    assert r == prefix + "_" + Sanitize(key);
    if ValidIdShort(prefix) {
      forall i | 0 <= i < |r| ensures IsIdChar(r[i]) {
        if i < |prefix| {
          assert r[i] == prefix[i];
        } else if i == |prefix| {
          assert r[i] == '_';
        } else {
          assert r[i] == Sanitize(key)[i - |prefix| - 1];
        }
      }
    }
    if ValidIdShort(r) {
      forall i | 0 <= i < |prefix| ensures IsIdChar(prefix[i]) {
        assert r[i] == prefix[i];
      }
      assert r[0] == prefix[0];
    }
  }

  /** Without a prefix, a legal key behind one non-letter is stripped to
      that key. */
  lemma OneNonLetterStripped(k: string, rest: string)
    requires AllIdChars(k) && |k| > 0 && !IsLetter(k[0]) && k[1..] == rest && ValidIdShort(rest)
    ensures Normalize(k, "") == rest
  {
    assert StripLeadingNonLetters(k) == StripLeadingNonLetters(rest) == rest;
  }

  /** With a prefix, a non-letter-led key of id characters is kept whole
      behind `prefix_`. */
  lemma NonLetterLedPrefixed(k: string, prefix: string)
    requires AllIdChars(k) && |k| > 0 && !IsLetter(k[0]) && prefix != ""
    ensures Normalize(k, prefix) == prefix + "_" + k
  {
  }

  /** A legal idShort behind one digit: without a prefix the digit is
      stripped, with one the whole key is kept behind `prefix_`. */
  lemma DigitLedKey(d: char, rest: string, prefix: string)
    requires IsDigit(d) && ValidIdShort(rest)
    ensures Normalize([d] + rest, "") == rest
    ensures prefix != "" ==> Normalize([d] + rest, prefix) == prefix + "_" + [d] + rest
  {
    var k := [d] + rest;
    assert AllIdChars(k) by {
      forall i | 0 <= i < |k| ensures IsIdChar(k[i]) {
        if i > 0 { assert k[i] == rest[i - 1]; }
      }
    }
    assert k[1..] == rest;
    OneNonLetterStripped(k, rest);
    if prefix != "" {
      NonLetterLedPrefixed(k, prefix);
    }
  }

  /** The key "1abc": stripped to "abc" without a prefix, kept whole behind
      the prefix "parent". */
  lemma DigitLedExample(key: string, prefix: string)
    requires key == "1abc" && prefix == "parent"
    ensures Normalize(key, "") == "abc"
    ensures Normalize(key, prefix) == "parent_1abc"
  {
    var rest := "abc";
    assert ValidIdShort(rest) by {
      assert forall i :: 0 <= i < 3 ==> IsIdChar(rest[i]);
    }
    assert key == ['1'] + rest;
    DigitLedKey('1', rest, prefix);
  }
}
