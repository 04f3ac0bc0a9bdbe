/**
 * Speech sanitisation: the spoken form of a warning keeps only ASCII
 * letters, digits and spaces, deleting every other character.
 */
module Speech {

  /** A character the sanitiser keeps: [a-zA-Z0-9 ]. */
  predicate Speakable(c: char) {
    ('a' <= c <= 'z') || ('A' <= c <= 'Z') || ('0' <= c <= '9') || c == ' '
  }

  predicate AllSpeakable(s: string) {
    forall i :: 0 <= i < |s| ==> Speakable(s[i])
  }

  /** The last character of a non-empty text. */
  function Last(s: string): char
    requires |s| > 0
  {
    s[|s| - 1]
  }

  /** The text without its last character. */
  function Init(s: string): string
    requires |s| > 0
  {
    s[..|s| - 1]
  }

  /** The text with every character outside [a-zA-Z0-9 ] deleted. */
  function Sanitize(s: string): (r: string)
    ensures |r| <= |s|
  {
    if |s| == 0 then "" else Sanitize(Init(s)) + (if Speakable(Last(s)) then [Last(s)] else "")
  }

  /** The sanitised text holds only letters, digits and spaces. */
  lemma {:induction false} SanitizeIsSpeakable(s: string)
    ensures AllSpeakable(Sanitize(s))
  {
    if |s| > 0 {
      SanitizeIsSpeakable(Init(s));
    }
  }

  /** Sanitising a concatenation sanitises each part. */
  lemma {:induction false} SanitizeAppend(a: string, b: string)
    ensures Sanitize(a + b) == Sanitize(a) + Sanitize(b)
  {
    if |b| == 0 {
      assert a + b == a;
    } else {
      assert Init(a + b) == a + Init(b);
      assert Last(a + b) == Last(b);
      SanitizeAppend(a, Init(b));
    }
  }

  /** Sanitising a single character keeps it exactly when it is speakable. */
  lemma SanitizeChar(c: char)
    ensures Sanitize([c]) == if Speakable(c) then [c] else ""
  {
    assert Init([c]) == "";
  }

  /** Sanitising a text that starts with `c` handles `c`, then the rest. */
  lemma SanitizeCons(c: char, s: string)
    ensures Sanitize([c] + s) == (if Speakable(c) then [c] else "") + Sanitize(s)
  {
    SanitizeAppend([c], s);
    SanitizeChar(c);
  }

  /** Text is left unchanged exactly when it is already all speakable. */
  lemma {:induction false} SanitizeFixedPoint(s: string)
    ensures Sanitize(s) == s <==> AllSpeakable(s)
  {
    SanitizeIsSpeakable(s);
    if |s| > 0 && AllSpeakable(s) {
      assert AllSpeakable(Init(s)) by {
        forall i | 0 <= i < |Init(s)| ensures Speakable(Init(s)[i]) {
          assert Init(s)[i] == s[i];
        }
      }
      SanitizeFixedPoint(Init(s));
      assert s == Init(s) + [Last(s)];
    }
  }

  /** Sanitising twice gives the same text as sanitising once. */
  lemma SanitizeIdempotent(s: string)
    ensures Sanitize(Sanitize(s)) == Sanitize(s)
  {
    SanitizeIsSpeakable(s);
    SanitizeFixedPoint(Sanitize(s));
  }

  /** `a` can be obtained from `b` by deleting characters. */
  predicate IsSubsequence(a: string, b: string)
    decreases |b|
  {
    if |a| == 0 then true
    else if |b| == 0 then false
    else if Last(a) == Last(b) then IsSubsequence(Init(a), Init(b))
    else IsSubsequence(a, Init(b))
  }

  /** The sanitised text keeps its characters in their original order. */
  lemma {:induction false} SanitizeIsSubsequence(s: string)
    ensures IsSubsequence(Sanitize(s), s)
  {
    if |s| > 0 {
      var p := Init(s);
      SanitizeIsSubsequence(p);
      if Speakable(Last(s)) {
        assert Init(Sanitize(s)) == Sanitize(p);
      } else if |Sanitize(p)| > 0 {
        // the kept text ends in a speakable character, so not in Last(s)
        SanitizeIsSpeakable(p);
        assert Speakable(Sanitize(p)[|Sanitize(p)| - 1]);
        assert Sanitize(s) == Sanitize(p);
      }
    }
  }

  /**
   * Every speakable character survives as often as it occurs, and nothing
   * else survives.
   */
  lemma {:induction false} SanitizeKeepsSpeakable(s: string, c: char)
    ensures multiset(Sanitize(s))[c] == if Speakable(c) then multiset(s)[c] else 0
  {
    if |s| > 0 {
      SanitizeKeepsSpeakable(Init(s), c);
      assert s == Init(s) + [Last(s)];
    }
  }
}
