/** `generateSlug` of the store admin page: lower-case the name, drop every
    character that is not a lower-case letter, a digit, whitespace or `-`, turn
    each whitespace run into `-`, collapse each run of `-` into one, trim. */
module Slug {
  import opened Strings

  predicate IsSlugChar(c: char) {
    ('a' <= c <= 'z') || ('0' <= c <= '9') || c == '-'
  }

  predicate IsDash(c: char) {
    c == '-'
  }

  /** Every character of `s` may appear in a URL slug. */
  predicate SlugChars(s: string) {
    forall i :: 0 <= i < |s| ==> IsSlugChar(s[i])
  }

  /** No two neighbouring characters of `s` are both `-`. */
  predicate NoDoubleDash(s: string) {
    forall i :: 0 <= i < |s| - 1 ==> !(s[i] == '-' && s[i + 1] == '-')
  }

  /** `.replace(/[^a-z0-9\s-]/g, '')`. */
  function KeepSlugSource(s: string): (r: string)
    ensures forall i :: 0 <= i < |r| ==> IsSlugChar(r[i]) || IsWhitespace(r[i])
    ensures SlugChars(s) ==> r == s
    decreases |s|
  {
    if s == [] then []
    else (if IsSlugChar(s[0]) || IsWhitespace(s[0]) then [s[0]] else []) + KeepSlugSource(s[1..])
  }

  /** `s` without its leading run of characters satisfying `p`. */
  function DropRun(s: string, p: char -> bool): (r: string)
    ensures |r| <= |s| && r == s[|s| - |r|..]
    ensures r == [] || !p(r[0])
    ensures s != [] && p(s[0]) ==> |r| < |s|
    decreases |s|
  {
    if s != [] && p(s[0]) then DropRun(s[1..], p) else s
  }

  /** `.replace(/R+/g, rep)` where `R` matches exactly the characters satisfying
      `p`: every maximal run of such characters becomes the single character `rep`. */
  function ReplaceRuns(s: string, p: char -> bool, rep: char): (r: string)
    ensures r == [] <==> s == []
    ensures s != [] && p(s[0]) ==> r[0] == rep
    ensures s != [] && !p(s[0]) ==> r[0] == s[0]
    ensures forall i :: 0 <= i < |r| ==> r[i] == rep || (!p(r[i]) && r[i] in s)
    decreases |s|
  {
    if s == [] then []
    else if p(s[0]) then
      var t := DropRun(s, p);
      var rest := ReplaceRuns(t, p, rep);
      SuffixMembers(s, |s| - |t|);
      assert forall i :: 1 <= i < |rest| + 1 ==> ([rep] + rest)[i] == rest[i - 1];
      [rep] + rest
    else
      var rest := ReplaceRuns(s[1..], p, rep);
      SuffixMembers(s, 1);
      assert forall i :: 1 <= i < |rest| + 1 ==> ([s[0]] + rest)[i] == rest[i - 1];
      [s[0]] + rest
  }

  /** Every character of a suffix occurs in the whole string. */
  lemma SuffixMembers(s: string, k: nat)
    requires k <= |s|
    ensures forall c :: c in s[k..] ==> c in s
  {
    forall c | c in s[k..] ensures c in s {
      var j :| 0 <= j < |s[k..]| && s[k..][j] == c;
      assert s[k + j] == c;
    }
  }

  /** Collapsing the dash runs leaves no two neighbouring dashes. */
  lemma {:induction false} CollapsedNoDoubleDash(s: string)
    ensures NoDoubleDash(ReplaceRuns(s, IsDash, '-'))
    decreases |s|
  {
    if s != [] {
      var t := if s[0] == '-' then DropRun(s, IsDash) else s[1..];
      var rt := ReplaceRuns(t, IsDash, '-');
      CollapsedNoDoubleDash(t);
      var r := [if s[0] == '-' then '-' else s[0]] + rt;
      assert r == ReplaceRuns(s, IsDash, '-');
      assert s[0] == '-' ==> rt == [] || rt[0] != '-' by {
        if s[0] == '-' && t != [] {
          assert !IsDash(t[0]);
        }
      }
      forall i | 0 <= i < |r| - 1 ensures !(r[i] == '-' && r[i + 1] == '-') {
        if i > 0 {
          assert r[i] == rt[i - 1] && r[i + 1] == rt[i];
        }
      }
    }
  }

  /** ReplaceRuns changes nothing when every `p` character already is `rep` and
      no two of them are neighbours. */
  lemma {:induction false} ReplaceRunsFixed(s: string, p: char -> bool, rep: char)
    requires forall i :: 0 <= i < |s| ==> p(s[i]) ==> s[i] == rep
    requires forall i :: 0 <= i < |s| - 1 ==> !(p(s[i]) && p(s[i + 1]))
    ensures ReplaceRuns(s, p, rep) == s
    decreases |s|
  {
    if s != [] {
      if p(s[0]) {
        assert DropRun(s, p) == s[1..] by {
          if |s| > 1 {
            assert !p(s[1]);
          }
        }
      }
      ReplaceRunsFixed(s[1..], p, rep);
      assert s == [s[0]] + s[1..];
    }
  }

  /** `generateSlug(name)`. Lower-casing is ASCII only. */
  function Slug(name: string): string {
    var kept := KeepSlugSource(Lower(name));
    var dashed := ReplaceRuns(kept, IsWhitespace, '-');
    var collapsed := ReplaceRuns(dashed, IsDash, '-');
    Trim(collapsed)
  }

  /** The slug holds only `[a-z0-9-]` and never two `-` in a row; it may still
      start or end with `-`, since the final trim only removes whitespace. */
  lemma SlugIsUrlSafe(name: string)
    ensures SlugChars(Slug(name)) && NoDoubleDash(Slug(name))
  {
    var kept := KeepSlugSource(Lower(name));
    var dashed := ReplaceRuns(kept, IsWhitespace, '-');
    var collapsed := ReplaceRuns(dashed, IsDash, '-');
    DashedIsSlug(kept);
    CollapsedIsSlug(dashed);
    CollapsedNoDoubleDash(dashed);
    SlugCharsTrimmed(collapsed);
  }

  /** Whitespace runs become `-`, so the dashed text holds slug characters only. */
  lemma DashedIsSlug(kept: string)
    requires forall i :: 0 <= i < |kept| ==> IsSlugChar(kept[i]) || IsWhitespace(kept[i])
    ensures SlugChars(ReplaceRuns(kept, IsWhitespace, '-'))
  {
    var r := ReplaceRuns(kept, IsWhitespace, '-');
    forall i | 0 <= i < |r| ensures IsSlugChar(r[i]) {
      if r[i] != '-' {
        assert r[i] in kept;
      }
    }
  }

  /** Collapsing dash runs keeps a string within the slug characters. */
  lemma CollapsedIsSlug(dashed: string)
    requires SlugChars(dashed)
    ensures SlugChars(ReplaceRuns(dashed, IsDash, '-'))
  {
    var r := ReplaceRuns(dashed, IsDash, '-');
    forall i | 0 <= i < |r| ensures IsSlugChar(r[i]) {
      if r[i] != '-' {
        assert r[i] in dashed;
      }
    }
  }

  /** Slug characters are not whitespace, so trimming leaves them alone. */
  lemma SlugCharsTrimmed(s: string)
    requires SlugChars(s)
    ensures NoWhitespace(s) && Trim(s) == s
  {
    assert NoWhitespace(s);
  }

  /** A string that is already a slug is its own slug. */
  lemma SlugOfSlug(s: string)
    requires SlugChars(s) && NoDoubleDash(s)
    ensures Slug(s) == s
  {
    assert Lower(s) == s;
    assert KeepSlugSource(s) == s;
    ReplaceRunsFixed(s, IsWhitespace, '-');
    ReplaceRunsFixed(s, IsDash, '-');
    SlugCharsTrimmed(s);
  }

  /** `generateSlug` is idempotent. */
  lemma SlugIdempotent(name: string)
    ensures Slug(Slug(name)) == Slug(name)
  {
    SlugIsUrlSafe(name);
    SlugOfSlug(Slug(name));
  }
}
