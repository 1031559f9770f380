/** Sequence and string helpers shared by the server and the browser models. */
module Text {

  /** The strings of `parts` joined end to end, defined from the last part so
      that a loop which appends one part at a time extends it directly. */
  function Concat(parts: seq<string>): string
  {
    if parts == [] then "" else Concat(parts[..|parts| - 1]) + parts[|parts| - 1]
  }

  lemma {:induction false} ConcatAppend(a: seq<string>, b: seq<string>)
    ensures Concat(a + b) == Concat(a) + Concat(b)
    decreases |b|
  {
    if b == [] {
      assert a + b == a;
    } else {
      var b' := b[..|b| - 1];
      var last := b[|b| - 1];
      assert (a + b)[..|a + b| - 1] == a + b';
      assert (a + b)[|a + b| - 1] == last;
      ConcatAppend(a, b');
      AppendAssociative(Concat(a), Concat(b'), last);
    }
  }

  lemma ConcatLast(parts: seq<string>, part: string)
    ensures Concat(parts + [part]) == Concat(parts) + part
  {
    assert (parts + [part])[..|parts|] == parts;
  }

  lemma AppendAssociative<T>(a: seq<T>, b: seq<T>, c: seq<T>)
    ensures (a + b) + c == a + (b + c)
  {
  }

  lemma EmptyAppend(s: string)
    ensures "" + s == s
  {
  }

  lemma PrefixKept(a: string, b: string, k: nat)
    requires k <= |a|
    ensures (a + b)[..k] == a[..k]
  {
  }

  /** Whether `s` begins with `prefix` (JavaScript `startsWith`). */
  predicate StartsWith(s: string, prefix: string)
  {
    |prefix| <= |s| && s[..|prefix|] == prefix
  }

  /** Whether `a` is a prefix of `b` and strictly shorter. */
  predicate StrictPrefix(a: string, b: string)
  {
    |a| < |b| && b[..|a|] == a
  }

  /** The non-empty strings of `parts`, in order: what both Python's
      `if token:` and JavaScript's `filter(Boolean)` keep of a list of
      strings. */
  function NonEmpty(parts: seq<string>): seq<string>
  {
    if parts == [] then []
    else
      var last := parts[|parts| - 1];
      NonEmpty(parts[..|parts| - 1]) + (if last != "" then [last] else [])
  }

  /** Filtering keeps exactly the non-empty strings: what is left is all
      non-empty, no longer than the input, and joins to the same text. */
  lemma {:induction false} NonEmptyKeepsText(parts: seq<string>)
    ensures forall i :: 0 <= i < |NonEmpty(parts)| ==> NonEmpty(parts)[i] != ""
    ensures |NonEmpty(parts)| <= |parts|
    ensures Concat(NonEmpty(parts)) == Concat(parts)
    decreases |parts|
  {
    if parts != [] {
      var front := parts[..|parts| - 1];
      var last := parts[|parts| - 1];
      NonEmptyKeepsText(front);
      ConcatAppend(NonEmpty(front), if last != "" then [last] else []);
      if last == "" {
        assert NonEmpty(front) + [] == NonEmpty(front);
      }
    }
  }

  /** A list with no empty string passes the filter unchanged. */
  lemma {:induction false} NonEmptyIdentity(parts: seq<string>)
    requires forall i :: 0 <= i < |parts| ==> parts[i] != ""
    ensures NonEmpty(parts) == parts
    decreases |parts|
  {
    if parts != [] {
      NonEmptyIdentity(parts[..|parts| - 1]);
    }
  }

  lemma {:induction false} NonEmptyAppend(a: seq<string>, b: seq<string>)
    ensures NonEmpty(a + b) == NonEmpty(a) + NonEmpty(b)
    decreases |b|
  {
    if b == [] {
      assert a + b == a;
    } else {
      var b' := b[..|b| - 1];
      assert (a + b)[..|a + b| - 1] == a + b';
      NonEmptyAppend(a, b');
    }
  }

  lemma NonEmptyStep(parts: seq<string>, i: int)
    requires 0 <= i < |parts|
    ensures NonEmpty(parts[..i + 1])
         == NonEmpty(parts[..i]) + (if parts[i] != "" then [parts[i]] else [])
  {
    assert parts[..i + 1][..i] == parts[..i];
  }
}
