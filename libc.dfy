/**
 * The C library behaviour the shell's parsers rely on: NUL-terminated strings
 * and `strtok`, whose successive calls yield the maximal non-empty runs of
 * characters outside a delimiter set.
 */
module LibC {
  import opened Wrappers

  /** The characters of a C string before its terminator: none of them is NUL. */
  predicate IsCString(s: string) {
    '\0' !in s
  }

  /** A token `strtok` can return: non-empty and free of delimiters. */
  predicate IsField(t: string, delims: set<char>) {
    |t| > 0 && forall k :: 0 <= k < |t| ==> t[k] !in delims
  }

  /** The length of the longest prefix of `s` that holds no delimiter. */
  function RunLen(s: string, delims: set<char>): (n: nat)
    ensures n <= |s|
    ensures forall k :: 0 <= k < n ==> s[k] !in delims
    ensures n < |s| ==> s[n] in delims
  {
    if s == [] || s[0] in delims then 0 else 1 + RunLen(s[1..], delims)
  }

  /** The tokens that `strtok(s, delims)` and the calls `strtok(NULL, delims)` after it return, in order. */
  function Fields(s: string, delims: set<char>): seq<string>
    decreases |s|
  {
    if s == [] then []
    else if s[0] in delims then Fields(s[1..], delims)
    else
      var n := RunLen(s, delims);
      [s[..n]] + Fields(s[n..], delims)
  }

  /** Every token strtok returns is non-empty and free of delimiters. */
  lemma {:induction false} FieldsAreFields(s: string, delims: set<char>)
    ensures forall k :: 0 <= k < |Fields(s, delims)| ==> IsField(Fields(s, delims)[k], delims)
    decreases |s|
  {
    if s != [] {
      if s[0] in delims {
        FieldsAreFields(s[1..], delims);
      } else {
        FieldsAreFields(s[RunLen(s, delims)..], delims);
      }
    }
  }

  /** `s` with every delimiter deleted. */
  function Without(s: string, delims: set<char>): string {
    if s == [] then []
    else (if s[0] in delims then [] else [s[0]]) + Without(s[1..], delims)
  }

  /** The tokens written one after the other. */
  function Concat(ts: seq<string>): string {
    if ts == [] then [] else ts[0] + Concat(ts[1..])
  }

  /** The tokens with one separator character between neighbours. */
  function Join(ts: seq<string>, sep: char): string {
    if |ts| == 0 then []
    else if |ts| == 1 then ts[0]
    else ts[0] + [sep] + Join(ts[1..], sep)
  }

  /** The list of tokens still to be seen when `tok` is the one just returned. */
  function Pending(tok: Option<string>): seq<string> {
    if tok.Some? then [tok.value] else []
  }

  lemma RunLenExact(s: string, delims: set<char>, n: nat)
    requires n <= |s|
    requires forall k :: 0 <= k < n ==> s[k] !in delims
    requires n < |s| ==> s[n] in delims
    ensures RunLen(s, delims) == n
  {
  }

  /** A delimiter in front of the rest yields no token. */
  lemma FieldsSkip(s: string, i: nat, delims: set<char>)
    requires i < |s| && s[i] in delims
    ensures Fields(s[i..], delims) == Fields(s[i + 1..], delims)
  {
    assert s[i..][1..] == s[i + 1..];
  }

  /** A maximal run starting at `i` and ending at `j` is the next token. */
  lemma FieldsAtRun(s: string, i: nat, j: nat, delims: set<char>)
    requires i < j <= |s|
    requires forall k :: i <= k < j ==> s[k] !in delims
    requires j < |s| ==> s[j] in delims
    ensures Fields(s[i..], delims) == [s[i..j]] + Fields(s[j..], delims)
  {
    var t := s[i..];
    RunLenExact(t, delims, j - i);
    assert t[..j - i] == s[i..j];
    assert t[j - i..] == s[j..];
  }

  /**
   * One call of `strtok` that resumes at `pos`: it skips delimiters, returns
   * the run that follows (None at the end of the string) and resumes after the
   * delimiter that ends the run, which it overwrites with NUL.
   */
  method Strtok(s: string, pos: nat, delims: set<char>) returns (tok: Option<string>, next: nat)
    requires pos <= |s|
    ensures next <= |s|
    ensures tok.None? <==> Fields(s[pos..], delims) == []
    ensures tok.None? ==> next == |s| && Fields(s[next..], delims) == []
    ensures tok.Some? ==> pos < next
    ensures Pending(tok) + Fields(s[next..], delims) == Fields(s[pos..], delims)
  {
    var i := pos;
    while i < |s| && s[i] in delims
      invariant pos <= i <= |s|
      invariant Fields(s[i..], delims) == Fields(s[pos..], delims)
    {
      FieldsSkip(s, i, delims);
      i := i + 1;
    }
    if i == |s| {
      assert s[i..] == [];
      return None, |s|;
    }
    var j := i;
    while j < |s| && s[j] !in delims
      invariant i <= j <= |s|
      invariant forall k :: i <= k < j ==> s[k] !in delims
    {
      j := j + 1;
    }
    FieldsAtRun(s, i, j, delims);
    tok := Some(s[i..j]);
    next := if j < |s| then j + 1 else j;
    if j < |s| {
      FieldsSkip(s, j, delims);
    }
    assert Fields(s[next..], delims) == Fields(s[j..], delims);
  }

  lemma {:induction false} WithoutAppend(a: string, b: string, delims: set<char>)
    ensures Without(a + b, delims) == Without(a, delims) + Without(b, delims)
    decreases |a|
  {
    if a == [] {
      assert a + b == b;
    } else {
      assert (a + b)[1..] == a[1..] + b;
      WithoutAppend(a[1..], b, delims);
    }
  }

  lemma {:induction false} WithoutNone(t: string, delims: set<char>)
    requires forall k :: 0 <= k < |t| ==> t[k] !in delims
    ensures Without(t, delims) == t
    decreases |t|
  {
    if t != [] {
      WithoutNone(t[1..], delims);
    }
  }

  /** strtok loses only delimiters: its tokens, written together, are the input with the delimiters deleted. */
  lemma {:induction false} FieldsConcat(s: string, delims: set<char>)
    ensures Concat(Fields(s, delims)) == Without(s, delims)
    decreases |s|
  {
    if s != [] {
      if s[0] in delims {
        FieldsConcat(s[1..], delims);
      } else {
        var n := RunLen(s, delims);
        assert s == s[..n] + s[n..];
        FieldsConcat(s[n..], delims);
        WithoutAppend(s[..n], s[n..], delims);
        WithoutNone(s[..n], delims);
        assert ([s[..n]] + Fields(s[n..], delims))[1..] == Fields(s[n..], delims);
      }
    }
  }

  /** A single delimiter separates: what precedes it and what follows it are tokenised independently. */
  lemma {:induction false} FieldsSplit(a: string, c: char, b: string, delims: set<char>)
    requires c in delims
    ensures Fields(a + [c] + b, delims) == Fields(a, delims) + Fields(b, delims)
    decreases |a|
  {
    var s := a + [c] + b;
    if a == [] {
      assert s[1..] == b;
    } else if a[0] in delims {
      assert s[1..] == a[1..] + [c] + b;
      FieldsSplit(a[1..], c, b, delims);
    } else {
      var n := RunLen(a, delims);
      assert forall k :: 0 <= k < n ==> s[k] == a[k];
      assert s[n] in delims by {
        if n < |a| { assert s[n] == a[n]; } else { assert s[n] == c; }
      }
      RunLenExact(s, delims, n);
      assert s[..n] == a[..n];
      assert s[n..] == a[n..] + [c] + b;
      FieldsSplit(a[n..], c, b, delims);
      assert Fields(s, delims) == [a[..n]] + Fields(a[n..] + [c] + b, delims);
      assert Fields(a, delims) == [a[..n]] + Fields(a[n..], delims);
    }
  }

  /** A character missing from the string is missing from each of its tokens. */
  lemma {:induction false} FieldsAvoid(s: string, delims: set<char>, c: char)
    requires c !in s
    ensures forall k :: 0 <= k < |Fields(s, delims)| ==> c !in Fields(s, delims)[k]
    decreases |s|
  {
    if s != [] {
      if s[0] in delims {
        FieldsAvoid(s[1..], delims, c);
      } else {
        var n := RunLen(s, delims);
        assert c !in s[..n] by {
          assert forall k :: 0 <= k < n ==> s[..n][k] == s[k];
        }
        assert forall k :: 0 <= k < |s| - n ==> s[n..][k] == s[n + k];
        FieldsAvoid(s[n..], delims, c);
      }
    }
  }

  /** A token on its own is returned whole. */
  lemma FieldsOfField(t: string, delims: set<char>)
    requires IsField(t, delims)
    ensures Fields(t, delims) == [t]
  {
    RunLenExact(t, delims, |t|);
    assert t[..|t|] == t;
    assert t[|t|..] == [];
  }

  /** strtok inverts joining: tokens joined by a delimiter come back unchanged. */
  lemma {:induction false} FieldsJoin(ts: seq<string>, sep: char, delims: set<char>)
    requires sep in delims
    requires forall k :: 0 <= k < |ts| ==> IsField(ts[k], delims)
    ensures Fields(Join(ts, sep), delims) == ts
    decreases |ts|
  {
    if |ts| == 1 {
      FieldsOfField(ts[0], delims);
    } else if |ts| > 1 {
      FieldsSplit(ts[0], sep, Join(ts[1..], sep), delims);
      FieldsOfField(ts[0], delims);
      FieldsJoin(ts[1..], sep, delims);
    }
  }
}
