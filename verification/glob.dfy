/**
  Shell-style name matching as `fnmatch.fnmatch` performs it on POSIX: `*`
  matches any run of characters (including none), `?` matches exactly one
  character, and every other character matches itself. The whole name must
  match the whole pattern.
 */
module Glob {

  /** True iff `p` holds one of the two wildcard characters. */
  predicate HasWildcard(p: string) {
    '*' in p || '?' in p
  }

  /** Does the name `s` match the pattern `p`? */
  predicate Match(p: string, s: string)
    decreases |p| + |s|
  {
    if |p| == 0 then
      |s| == 0
    else if p[0] == '*' then
      Match(p[1..], s) || (|s| > 0 && Match(p, s[1..]))
    else
      |s| > 0 && (p[0] == '?' || p[0] == s[0]) && Match(p[1..], s[1..])
  }

  /** A pattern without wildcards matches exactly one name: itself. */
  lemma {:induction false} LiteralMatchesOnlyItself(p: string, s: string)
    requires !HasWildcard(p)
    ensures Match(p, s) <==> s == p
  {
    if |p| == 0 {
    } else {
      assert p[0] != '*' && p[0] != '?';
      assert !HasWildcard(p[1..]) by {
        forall i | 0 <= i < |p[1..]| ensures p[1..][i] != '*' && p[1..][i] != '?' {
          assert p[1..][i] == p[i + 1];
        }
      }
      if |s| > 0 {
        LiteralMatchesOnlyItself(p[1..], s[1..]);
        if s == p {
          assert s[1..] == p[1..];
        }
      }
    }
  }

  /** A literal prefix must be matched character by character before the rest of the pattern. */
  lemma {:induction false} LiteralPrefix(pre: string, q: string, s: string)
    requires !HasWildcard(pre)
    ensures Match(pre + q, s) <==> |pre| <= |s| && s[..|pre|] == pre && Match(q, s[|pre|..])
  {
    if |pre| == 0 {
      assert pre + q == q;
      assert s[..0] == pre && s[0..] == s;
    } else {
      var p := pre + q;
      assert p[0] == pre[0] && p[1..] == pre[1..] + q;
      assert pre[0] != '*' && pre[0] != '?';
      assert !HasWildcard(pre[1..]) by {
        forall i | 0 <= i < |pre[1..]| ensures pre[1..][i] != '*' && pre[1..][i] != '?' {
          assert pre[1..][i] == pre[i + 1];
        }
      }
      if |s| > 0 {
        LiteralPrefix(pre[1..], q, s[1..]);
        if |pre| <= |s| {
          assert s[1..][|pre| - 1..] == s[|pre|..];
          assert s[..|pre|] == [s[0]] + s[1..][..|pre| - 1];
          assert pre == [pre[0]] + pre[1..];
          if s[..|pre|] == pre {
            assert s[0] == pre[0];
            assert s[1..][..|pre| - 1] == pre[1..];
          }
        }
      }
    }
  }

  /** A single star followed by a literal suffix matches exactly the names ending in that suffix. */
  lemma {:induction false} StarThenLiteral(suf: string, s: string)
    requires !HasWildcard(suf)
    ensures Match("*" + suf, s) <==> |suf| <= |s| && s[|s| - |suf|..] == suf
  {
    var p := "*" + suf;
    assert p[0] == '*' && p[1..] == suf;
    LiteralMatchesOnlyItself(suf, s);
    if |s| > 0 {
      StarThenLiteral(suf, s[1..]);
      if |suf| <= |s| - 1 {
        assert s[1..][|s| - 1 - |suf|..] == s[|s| - |suf|..];
      }
      if |suf| == |s| {
        assert s[|s| - |suf|..] == s;
      }
    } else {
      if |suf| <= |s| {
        assert s[|s| - |suf|..] == s;
      }
    }
  }

  /** The last n characters of a suffix of s are the last n characters of s. */
  lemma TailOfTail(s: string, k: nat, n: nat)
    requires k + n <= |s|
    ensures s[k..][|s[k..]| - n..] == s[|s| - n..]
  {
  }

  /** `StarThenLiteral` on what is left of s after its first k characters. */
  lemma StarThenLiteralAfter(suf: string, s: string, k: nat)
    requires !HasWildcard(suf) && k <= |s|
    ensures Match("*" + suf, s[k..]) <==> k + |suf| <= |s| && s[|s| - |suf|..] == suf
  {
    StarThenLiteral(suf, s[k..]);
    if k + |suf| <= |s| {
      TailOfTail(s, k, |suf|);
    }
  }

  /**
    The patterns the scripts use (`NcollList*.dat`, `NpartList*.dat`) have the
    form literal, star, literal: they match exactly the names that start with the
    first literal and end with the second, long enough to hold both.
   */
  lemma PrefixStarSuffix(pre: string, suf: string, s: string)
    requires !HasWildcard(pre) && !HasWildcard(suf)
    ensures Match(pre + ("*" + suf), s) <==>
              |pre| + |suf| <= |s| && s[..|pre|] == pre && s[|s| - |suf|..] == suf
  {
    LiteralPrefix(pre, "*" + suf, s);
    if |pre| <= |s| {
      StarThenLiteralAfter(suf, s, |pre|);
    }
  }

  const NcollPrefix: string := "NcollList"

  const NpartPrefix: string := "NpartList"

  const DatSuffix: string := ".dat"

  /** The pattern of the per-event collision list, `NcollList*.dat`. */
  const NcollPattern: string := NcollPrefix + ("*" + DatSuffix)

  /** The pattern of the per-event participant list, `NpartList*.dat`. */
  const NpartPattern: string := NpartPrefix + ("*" + DatSuffix)

  /** The literal pieces of both patterns: their lengths, and no wildcard among them. */
  lemma PatternPieces()
    ensures |NcollPrefix| == 9 && !HasWildcard(NcollPrefix)
    ensures |NpartPrefix| == 9 && !HasWildcard(NpartPrefix)
    ensures |DatSuffix| == 4 && !HasWildcard(DatSuffix)
  {
  }

  /** Names selected by the collision-list pattern: `NcollList` + anything + `.dat`. */
  lemma NcollPatternMeaning(s: string)
    ensures Match(NcollPattern, s) <==>
              |s| >= 13 && s[..9] == NcollPrefix && s[|s| - 4..] == DatSuffix
  {
    PatternPieces();
    PrefixStarSuffix(NcollPrefix, DatSuffix, s);
  }

  /** Names selected by the participant-list pattern: `NpartList` + anything + `.dat`. */
  lemma NpartPatternMeaning(s: string)
    ensures Match(NpartPattern, s) <==>
              |s| >= 13 && s[..9] == NpartPrefix && s[|s| - 4..] == DatSuffix
  {
    PatternPieces();
    PrefixStarSuffix(NpartPrefix, DatSuffix, s);
  }
}
