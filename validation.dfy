/**
 * The field rules of an entity: a name is required and must have between 3
 * and 50 characters once blanks at both ends are trimmed; a description may
 * be null and otherwise has at most 255 characters, counted untrimmed.
 *
 * A Dafny `char` is a Unicode scalar value, so the strings modelled are those
 * without supplementary characters: there each character is one UTF-16 code
 * unit and `|s|` is `String.length()`.
 */
module Validation {
  import opened Wrappers

  const MIN_NAME_LENGTH: nat := 3
  const MAX_NAME_LENGTH: nat := 50
  const MAX_DESCRIPTION_LENGTH: nat := 255

  const NAME_ERROR: string := "Name must be between 3 and 50 characters."
  const DESCRIPTION_ERROR: string := "Description must be less than or equal to 255 characters."

  /** `String.trim()` removes every character whose code is at most U+0020. */
  predicate IsBlank(c: char) {
    c <= ' '
  }

  /** `s` without its leading blanks. */
  function TrimStart(s: string): (r: string)
    ensures |r| <= |s| && r == s[|s| - |r|..]
    ensures forall k :: 0 <= k < |s| - |r| ==> IsBlank(s[k])
    ensures r != [] ==> !IsBlank(r[0])
  {
    if s != [] && IsBlank(s[0]) then TrimStart(s[1..]) else s
  }

  /** `s` without its trailing blanks. */
  function TrimEnd(s: string): (r: string)
    ensures |r| <= |s| && r == s[..|r|]
    ensures forall k :: |r| <= k < |s| ==> IsBlank(s[k])
    ensures r != [] ==> !IsBlank(r[|r| - 1])
  {
    if s != [] && IsBlank(s[|s| - 1]) then TrimEnd(s[..|s| - 1]) else s
  }

  /** Java's `String.trim()`: leading blanks first, then trailing ones. */
  function Trim(s: string): string {
    TrimEnd(TrimStart(s))
  }

  /** The trimmed string is the largest infix of `s` that starts and ends with a non-blank. */
  lemma TrimIsBlankFreeInfix(s: string)
    ensures var t := Trim(s);
      && |t| <= |s|
      && (t != [] ==> !IsBlank(t[0]) && !IsBlank(t[|t| - 1]))
      && (exists i {:trigger s[i..]} :: 0 <= i <= |s| - |t| && s[i..i + |t|] == t
            && (forall k :: 0 <= k < i ==> IsBlank(s[k]))
            && (forall k :: i + |t| <= k < |s| ==> IsBlank(s[k])))
  {
    var u := TrimStart(s);
    var t := TrimEnd(u);
    var i := |s| - |u|;
    assert s[i..i + |t|] == u[..|t|] == t;
    assert forall k :: 0 <= k < i ==> IsBlank(s[k]);
    forall k | i + |t| <= k < |s| ensures IsBlank(s[k]) {
      assert s[k] == u[k - i];
    }
  }

  /** A string of blanks only trims to the empty string, and only such strings do. */
  lemma TrimEmptyIffAllBlank(s: string)
    ensures Trim(s) == [] <==> forall k :: 0 <= k < |s| ==> IsBlank(s[k])
  {
    if forall k :: 0 <= k < |s| ==> IsBlank(s[k]) {
      TrimStartAllBlank(s);
    }
  }

  /**
   * The check of `Entity.setName`: the name is rejected when null, or when its
   * trimmed length is below 3 or above 50.
   */
  predicate IsValidName(name: Option<string>) {
    !(name.None? || |Trim(name.value)| < MIN_NAME_LENGTH || |Trim(name.value)| > MAX_NAME_LENGTH)
  }

  /** The check of `Entity.setDescription`: null is fine, otherwise at most 255 raw characters. */
  predicate IsValidDescription(description: Option<string>) {
    !(description.Some? && |description.value| > MAX_DESCRIPTION_LENGTH)
  }

  /**
   * An accepted name has at least three characters, and two distinct non-blank
   * ones: the first and the last of its trimmed part, at least two apart.
   * Nothing more is promised about the characters between them ("a b" is accepted).
   */
  lemma ValidNameHasNonBlankEnds(name: Option<string>)
    requires IsValidName(name)
    ensures name.Some? && |name.value| >= MIN_NAME_LENGTH
    ensures exists i, j :: 0 <= i < j < |name.value| && !IsBlank(name.value[i]) && !IsBlank(name.value[j])
  {
    var s := name.value;
    var u := TrimStart(s);
    var t := TrimEnd(u);
    var i := |s| - |u|;
    var j := i + |t| - 1;
    assert t[0] == u[0] == s[i];
    assert t[|t| - 1] == u[|t| - 1] == s[j];
  }

  /** ...but its raw length is not bounded: blanks around a valid name keep it valid. */
  lemma PaddedNameStaysValid(name: string, pad: nat)
    requires IsValidName(Some(name))
    ensures IsValidName(Some(name + seq(pad, _ => ' ')))
    ensures IsValidName(Some(seq(pad, _ => ' ') + name))
  {
    TrimPadded(name, seq(pad, _ => ' '));
  }

  /** Adding blanks at either end does not change the trimmed string. */
  lemma {:induction false} TrimPadded(s: string, blanks: string)
    requires forall k :: 0 <= k < |blanks| ==> IsBlank(blanks[k])
    ensures Trim(s + blanks) == Trim(s)
    ensures Trim(blanks + s) == Trim(s)
  {
    TrimStartPrefix(blanks, s);
    TrimPaddedEnd(s, blanks);
  }

  lemma {:induction false} TrimStartPrefix(blanks: string, s: string)
    requires forall k :: 0 <= k < |blanks| ==> IsBlank(blanks[k])
    ensures TrimStart(blanks + s) == TrimStart(s)
  {
    if blanks != [] {
      assert (blanks + s)[1..] == blanks[1..] + s;
      TrimStartPrefix(blanks[1..], s);
    } else {
      assert blanks + s == s;
    }
  }

  lemma {:induction false} TrimEndSuffix(s: string, blanks: string)
    requires forall k :: 0 <= k < |blanks| ==> IsBlank(blanks[k])
    ensures TrimEnd(s + blanks) == TrimEnd(s)
  {
    if blanks != [] {
      var n := |blanks| - 1;
      assert (s + blanks)[..|s + blanks| - 1] == s + blanks[..n];
      TrimEndSuffix(s, blanks[..n]);
    } else {
      assert s + blanks == s;
    }
  }

  /** Trailing blanks do not change the trimmed string. */
  lemma {:induction false} TrimPaddedEnd(s: string, blanks: string)
    requires forall k :: 0 <= k < |blanks| ==> IsBlank(blanks[k])
    ensures Trim(s + blanks) == Trim(s)
  {
    TrimStartAppend(s, blanks);
    if TrimStart(s) != [] {
      TrimEndSuffix(TrimStart(s), blanks);
    }
  }

  lemma {:induction false} TrimStartAppend(s: string, tail: string)
    requires forall k :: 0 <= k < |tail| ==> IsBlank(tail[k])
    ensures TrimStart(s + tail) == if TrimStart(s) == [] then [] else TrimStart(s) + tail
  {
    if s == [] {
      assert s + tail == tail;
      TrimStartAllBlank(tail);
    } else if IsBlank(s[0]) {
      assert (s + tail)[1..] == s[1..] + tail;
      TrimStartAppend(s[1..], tail);
    }
  }

  lemma {:induction false} TrimStartAllBlank(s: string)
    requires forall k :: 0 <= k < |s| ==> IsBlank(s[k])
    ensures TrimStart(s) == []
  {
    if s != [] {
      TrimStartAllBlank(s[1..]);
    }
  }

  /** The lower boundary: null and 2 characters are rejected, 3 accepted; blanks do not count. */
  lemma ShortNameBoundary()
    ensures !IsValidName(None)
    ensures !IsValidName(Some("ab")) && IsValidName(Some("abc"))
    ensures !IsValidName(Some("  ab  "))
  {
    assert TrimStart("ab") == "ab" && TrimEnd("ab") == "ab";
    assert TrimStart("abc") == "abc" && TrimEnd("abc") == "abc";
    TrimPadded("ab", "  ");
    assert "  ab  " == "  " + ("ab" + "  ");
    TrimPadded("ab" + "  ", "  ");
  }

  /** The upper boundary: 50 characters are accepted, 51 rejected. */
  lemma LongNameBoundary()
    ensures IsValidName(Some(seq(50, _ => 'a')))
    ensures !IsValidName(Some(seq(51, _ => 'a')))
  {
    NoBlankEndsTrimToSelf(seq(50, _ => 'a'));
    NoBlankEndsTrimToSelf(seq(51, _ => 'a'));
  }

  lemma NoBlankEndsTrimToSelf(s: string)
    requires s != [] && !IsBlank(s[0]) && !IsBlank(s[|s| - 1])
    ensures Trim(s) == s
  {
  }
}
