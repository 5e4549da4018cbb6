/** Small helpers shared by every module: an optional value, duplicate-free
    sequences, and the JavaScript string operations the forms rely on
    (`String.prototype.trim` and the `a || default` idiom on strings). */
module Common {

  datatype Option<T> = None | Some(value: T)

  datatype Result<T, E> = Ok(value: T) | Err(error: E)

  /** `s` holds no element twice. */
  predicate NoDup<T(==)>(s: seq<T>) {
    forall i, j :: 0 <= i < j < |s| ==> s[i] != s[j]
  }

  lemma NoDupAppend<T>(s: seq<T>, x: T)
    ensures NoDup(s) && x !in s ==> NoDup(s + [x])
  {
    if NoDup(s) && x !in s {
      forall i, j | 0 <= i < j < |s + [x]|
        ensures (s + [x])[i] != (s + [x])[j]
      {
        if j == |s| {
          assert (s + [x])[i] == s[i];
        }
      }
    }
  }

  lemma NoDupTail<T>(s: seq<T>)
    requires s != []
    ensures NoDup(s) ==> NoDup(s[1..])
  {
    if NoDup(s) {
      forall i, j | 0 <= i < j < |s[1..]| ensures s[1..][i] != s[1..][j] {
        assert s[1..][i] == s[i + 1] && s[1..][j] == s[j + 1];
      }
    }
  }

  lemma NoDupCons<T>(x: T, s: seq<T>)
    ensures NoDup(s) && x !in s ==> NoDup([x] + s)
  {
    if NoDup(s) && x !in s {
      forall i, j | 0 <= i < j < |[x] + s| ensures ([x] + s)[i] != ([x] + s)[j] {
        assert ([x] + s)[j] == s[j - 1];
        if i > 0 {
          assert ([x] + s)[i] == s[i - 1];
        }
      }
    }
  }

  /** The prefix of length `i + 1` is the prefix of length `i` followed by `s[i]`. */
  lemma PrefixSnoc<T>(s: seq<T>, i: nat)
    requires i < |s|
    ensures s[..i + 1] == s[..i] + [s[i]] && s[..i + 1][..i] == s[..i]
  {
  }

  /** In a duplicate-free sequence no element occurs before its own position. */
  lemma NoDupNotBefore<T>(s: seq<T>, i: nat)
    requires NoDup(s) && i < |s|
    ensures s[i] !in s[..i]
  {
    forall j | 0 <= j < i ensures s[..i][j] != s[i] {
      assert s[..i][j] == s[j];
    }
  }

  /** The characters ECMAScript's `trim` removes: WhiteSpace and LineTerminator. */
  predicate IsJsSpace(c: char) {
    || c == '\t' || c == '\n' || c == '\U{000B}' || c == '\U{000C}' || c == '\r' || c == ' '
    || c == '\U{00A0}' || c == '\U{1680}' || ('\U{2000}' <= c <= '\U{200A}')
    || c == '\U{2028}' || c == '\U{2029}' || c == '\U{202F}' || c == '\U{205F}'
    || c == '\U{3000}' || c == '\U{FEFF}'
  }

  /** Every character of `s` is white space (the empty string included). */
  predicate IsBlank(s: string) {
    forall i :: 0 <= i < |s| ==> IsJsSpace(s[i])
  }

  /** A blank character followed by a blank string is blank. */
  lemma BlankCons(c: char, s: string)
    requires IsJsSpace(c) && IsBlank(s)
    ensures IsBlank([c] + s)
  {
    forall i | 0 <= i < |[c] + s| ensures IsJsSpace(([c] + s)[i]) {
      if i > 0 {
        assert ([c] + s)[i] == s[i - 1];
      }
    }
  }

  /** A blank string followed by a blank character is blank. */
  lemma BlankSnoc(s: string, c: char)
    requires IsBlank(s) && IsJsSpace(c)
    ensures IsBlank(s + [c])
  {
    forall i | 0 <= i < |s + [c]| ensures IsJsSpace((s + [c])[i]) {
      if i < |s| {
        assert (s + [c])[i] == s[i];
      }
    }
  }

  /** `s` with its leading white space removed. */
  function TrimStart(s: string): (r: string)
    ensures |r| <= |s| && r == s[|s| - |r|..]
    ensures r == [] || !IsJsSpace(r[0])
    ensures IsBlank(s[..|s| - |r|])
  {
    if s == [] || !IsJsSpace(s[0]) then
      assert s[..0] == [];
      s
    else
      var r := TrimStart(s[1..]);
      assert s[..|s| - |r|] == [s[0]] + s[1..][..|s| - 1 - |r|];
      BlankCons(s[0], s[1..][..|s| - 1 - |r|]);
      r
  }

  /** `s` with its trailing white space removed. */
  function TrimEnd(s: string): (r: string)
    ensures |r| <= |s| && r == s[..|r|]
    ensures r == [] || !IsJsSpace(r[|r| - 1])
    ensures IsBlank(s[|r|..])
  {
    if s == [] || !IsJsSpace(s[|s| - 1]) then
      assert s[|s|..] == [];
      s
    else
      var r := TrimEnd(s[..|s| - 1]);
      assert s[|r|..] == s[..|s| - 1][|r|..] + [s[|s| - 1]];
      BlankSnoc(s[..|s| - 1][|r|..], s[|s| - 1]);
      r
  }

  /** `r` is the slice of `s` that starts at `lo`, everything before it and
      after it in `s` is white space, and `r` has white space at neither end. */
  predicate IsTrimOf(s: string, lo: nat, r: string) {
    && lo + |r| <= |s| && r == s[lo..lo + |r|]
    && IsBlank(s[..lo]) && IsBlank(s[lo + |r|..])
    && (r == [] || (!IsJsSpace(r[0]) && !IsJsSpace(r[|r| - 1])))
  }

  /** ECMAScript `s.trim()`: the slice of `s` between its leading and its
      trailing white space. */
  function Trim(s: string): (r: string)
    ensures IsTrimOf(s, |s| - |TrimStart(s)|, r)
  {
    TrimEndOfTrimStart(s);
    TrimEnd(TrimStart(s))
  }

  lemma TrimEndOfTrimStart(s: string)
    ensures IsTrimOf(s, |s| - |TrimStart(s)|, TrimEnd(TrimStart(s)))
  {
    SliceOfSuffix(s, TrimStart(s), TrimEnd(TrimStart(s)));
  }

  /** When `t` is a suffix of `s` that does not start with white space and
      follows white space only, and `r` a prefix of `t` that does not end
      with white space and is followed in `t` by white space only, then `r`
      is the trimmed slice of `s` starting where `t` does. */
  lemma SliceOfSuffix(s: string, t: string, r: string)
    requires |t| <= |s| && t == s[|s| - |t|..] && IsBlank(s[..|s| - |t|])
    requires |r| <= |t| && r == t[..|r|] && IsBlank(t[|r|..])
    requires t == [] || !IsJsSpace(t[0])
    requires r == [] || !IsJsSpace(r[|r| - 1])
    ensures IsTrimOf(s, |s| - |t|, r)
  {
    assert s[|s| - |t| + |r|..] == t[|r|..];
    if r != [] {
      assert r[0] == t[0];
    }
  }

  /** `!s.trim()` in JavaScript: the trimmed string is empty exactly when
      the string is blank. */
  lemma TrimEmptyIffBlank(s: string)
    ensures Trim(s) == [] <==> IsBlank(s)
  {
    var lo := |s| - |TrimStart(s)|;
    if Trim(s) == [] {
      assert s[..lo] == s;
    }
  }

  /** A non-empty string that neither starts nor ends with white space. */
  predicate IsTrimmedText(t: string) {
    t != [] && !IsJsSpace(t[0]) && !IsJsSpace(t[|t| - 1])
  }

  /** A string that is not blank trims to a non-empty string that neither
      starts nor ends with white space. */
  lemma TrimOfNonBlank(s: string)
    ensures !IsBlank(s) ==> IsTrimmedText(Trim(s))
  {
    TrimEmptyIffBlank(s);
  }

  /** JavaScript `o?.x || d` for a string field: the empty string is falsy. */
  function OrDefault(o: Option<string>, d: string): string
  {
    if o.Some? && o.value != "" then o.value else d
  }
}
