/** Refanging undoes fanging: however the dots, colons and `://` of a text are bracketed, and however
    its scheme is disguised, refang of src/prompts.rs gives the text back. */
module IndicatorFangs {
  import opened Wrappers
  import Text
  import opened IndicatorTokens

  // ------------------------------------------------------------------ brackets

  /** What is written in brackets so that nothing follows it by mistake. */
  const FANGS: set<string> := {"[.]", "(.)", "[:]", "[://]"}

  predicate IsFang(f: string) {
    f == "[.]" || f == "(.)" || f == "[:]" || f == "[://]"
  }

  /** A fang without its brackets. */
  function Bare(f: string): string
    requires |f| >= 2
  {
    f[1..|f| - 1]
  }

  /** `f` begins `s`, and stands for what begins `t`. */
  predicate Begins(f: string, s: string, t: string) {
    IsFang(f) && 3 <= |f| <= |s| && |f| - 2 <= |t| && f <= s && Bare(f) <= t
  }

  /** `s` is `t` with some of its parts in brackets, each as one of `fangs`. */
  ghost predicate Fanged(s: string, t: string, fangs: set<string>)
    decreases |s|
  {
    if t == "" then s == ""
    else
      || (s != "" && s[0] == t[0] && Fanged(s[1..], t[1..], fangs))
      || exists f :: f in fangs && Begins(f, s, t) && Fanged(s[|f|..], t[|f| - 2..], fangs)
  }

  /** A text that has no brackets itself. */
  predicate IsClean(t: string) {
    forall i :: 0 <= i < |t| ==> t[i] !in "[]()"
  }

  lemma {:induction false} NoFangs(s: string, t: string)
    requires Fanged(s, t, {})
    ensures s == t
    decreases |s|
  {
    if t != "" { NoFangs(s[1..], t[1..]); }
  }

  /** A part that is written out stands for itself. */
  lemma {:induction false} Plainly(part: string, s: string, t: string, fangs: set<string>)
    requires Fanged(s, t, fangs)
    ensures Fanged(part + s, part + t, fangs)
    decreases |part|
  {
    if part == "" {
      assert part + s == s && part + t == t;
    } else {
      Plainly(part[1..], s, t, fangs);
      assert (part + s)[1..] == part[1..] + s && (part + t)[1..] == part[1..] + t;
    }
  }

  predicate OpensNothing(x: string) {
    forall i :: 0 <= i < |x| ==> x[i] != '[' && x[i] != '('
  }

  /** A character where no fang begins stays. */
  lemma Stays(c: char, rest: string, g: string)
    requires IsFang(g) && !(g <= [c] + rest)
    ensures Replace([c] + rest, g, Bare(g)) == [c] + Replace(rest, g, Bare(g))
  {
    assert ([c] + rest)[1..] == rest;
  }

  lemma Associative(c: char, x: string, y: string)
    ensures [c] + (x + y) == [c] + x + y
  {
  }

  lemma PlainStays(c: char, rest: string, g: string)
    requires IsFang(g) && c != '[' && c != '('
    ensures Replace([c] + rest, g, Bare(g)) == [c] + Replace(rest, g, Bare(g))
  {
    assert ([c] + rest)[0] == c && (g[0] == '[' || g[0] == '(');
    Stays(c, rest, g);
  }

  lemma {:induction false} Passed(x: string, rest: string, g: string)
    requires IsFang(g) && OpensNothing(x)
    ensures Replace(x + rest, g, Bare(g)) == x + Replace(rest, g, Bare(g))
    decreases |x|
  {
    if x == "" {
      assert x + rest == rest;
    } else {
      Passed(x[1..], rest, g);
      PlainStays(x[0], x[1..] + rest, g);
      Associative(x[0], x[1..], rest);
      Associative(x[0], x[1..], Replace(rest, g, Bare(g)));
      assert [x[0]] + x[1..] == x;
    }
  }

  lemma Differ(f: string, g: string, rest: string)
    requires IsFang(f) && IsFang(g) && f != g
    ensures !(g <= f + rest)
  {
    var s := f + rest;
    assert s[0] == f[0] && s[1] == f[1] && s[2] == f[2];
  }

  lemma RestOpensNothing(f: string)
    requires IsFang(f)
    ensures OpensNothing(f[1..])
  {
  }

  /** No fang begins another, and within one no other begins. */
  lemma OtherStays(f: string, g: string, rest: string)
    requires IsFang(f) && IsFang(g) && f != g
    ensures Replace(f + rest, g, Bare(g)) == f + Replace(rest, g, Bare(g))
  {
    Differ(f, g, rest);
    RestOpensNothing(f);
    Passed(f[1..], rest, g);
    Associative(f[0], f[1..], rest);
    Associative(f[0], f[1..], Replace(rest, g, Bare(g)));
    assert [f[0]] + f[1..] == f;
    Stays(f[0], f[1..] + rest, g);
  }

  lemma FangGone(s: string, f: string)
    requires IsFang(f) && f <= s
    ensures Replace(s, f, Bare(f)) == Bare(f) + Replace(s[|f|..], f, Bare(f))
  {
  }

  lemma FangedFrom(s: string, t: string, fangs: set<string>, f: string)
    requires t != "" && f in fangs && Begins(f, s, t) && Fanged(s[|f|..], t[|f| - 2..], fangs)
    ensures Fanged(s, t, fangs)
  {
  }

  /** Any part of a text can be fanged: what stands around it stays. */
  lemma PartFanged(a: string, f: string, b: string)
    requires IsFang(f)
    ensures Fanged(a + (f + b), a + (Bare(f) + b), FANGS)
  {
    Plainly(b, "", "", FANGS);
    assert b + "" == b && (f + b)[|f|..] == b && (Bare(f) + b)[|f| - 2..] == b;
    FangedFrom(f + b, Bare(f) + b, FANGS, f);
    Plainly(a, f + b, Bare(f) + b, FANGS);
  }

  lemma CleanRest(t: string, n: nat)
    requires IsClean(t) && n <= |t|
    ensures IsClean(t[n..])
  {
    assert forall i :: 0 <= i < |t[n..]| ==> t[n..][i] == t[n + i];
  }

  /** Replacing one fang leaves a text that is fanged without it. */
  lemma {:induction false} Unfanged(s: string, t: string, fangs: set<string>, g: string)
    requires Fanged(s, t, fangs) && IsClean(t) && IsFang(g)
    ensures Fanged(Replace(s, g, Bare(g)), t, fangs - {g})
    decreases |s|
  {
    if t != "" {
      if s != "" && s[0] == t[0] && Fanged(s[1..], t[1..], fangs) {
        CleanRest(t, 1);
        Unfanged(s[1..], t[1..], fangs, g);
        PlainStays(s[0], s[1..], g);
        assert [s[0]] + s[1..] == s;
        var r := Replace(s[1..], g, Bare(g));
        assert ([s[0]] + r)[1..] == r;
      } else {
        var f :| f in fangs && Begins(f, s, t) && Fanged(s[|f|..], t[|f| - 2..], fangs);
        UnfangedAt(s, t, fangs, g, f);
      }
    }
  }

  lemma {:induction false} UnfangedAt(s: string, t: string, fangs: set<string>, g: string, f: string)
    requires IsClean(t) && IsFang(g) && t != ""
    requires f in fangs && Begins(f, s, t) && Fanged(s[|f|..], t[|f| - 2..], fangs)
    ensures Fanged(Replace(s, g, Bare(g)), t, fangs - {g})
    decreases |s|, 0
  {
    var rest, more := s[|f|..], t[|f| - 2..];
    CleanRest(t, |f| - 2);
    Unfanged(rest, more, fangs, g);
    var r := Replace(rest, g, Bare(g));
    assert s == f + rest && t == Bare(f) + more;
    if f == g {
      FangGone(s, f);
      Plainly(Bare(f), r, more, fangs - {g});
    } else {
      OtherStays(f, g, rest);
      assert (f + r)[|f|..] == r;
      FangedFrom(f + r, t, fangs - {g}, f);
    }
  }

  /** However a clean text is fanged, undotting gives it back. */
  lemma UndottedIs(s: string, t: string)
    requires Fanged(s, t, FANGS) && IsClean(t)
    ensures Undotted(s) == t
  {
    assert Bare("[.]") == "." && Bare("(.)") == "." && Bare("[:]") == ":" && Bare("[://]") == "://";
    Unfanged(s, t, FANGS, "[.]");
    var s1 := Replace(s, "[.]", ".");
    Unfanged(s1, t, FANGS - {"[.]"}, "(.)");
    var s2 := Replace(s1, "(.)", ".");
    Unfanged(s2, t, FANGS - {"[.]"} - {"(.)"}, "[:]");
    var s3 := Replace(s2, "[:]", ":");
    Unfanged(s3, t, FANGS - {"[.]"} - {"(.)"} - {"[:]"}, "[://]");
    assert FANGS - {"[.]"} - {"(.)"} - {"[:]"} - {"[://]"} == {};
    NoFangs(Undotted(s), t);
  }

  // ------------------------------------------------------------------ schemes

  predicate HasScheme(t: string, scheme: string) {
    |t| >= |scheme| && Text.ToLower(t[..|scheme|]) == scheme
  }

  lemma ReschemedFull(s: string, from: string, to: string)
    requires IsAscii(from)
    ensures HasScheme(s, from) ==> Rescheme(s, from, to) == Some(to + s[|from|..])
    ensures !HasScheme(s, from) && !SplitsCharacter(s, |from|) ==> Rescheme(s, from, to) == Some(s)
  {
    ReschemeExactly(s, from, to);
    AsciiBytes(from);
    if HasScheme(s, from) {
      LowerAscii(s[..|from|]);
      AsciiBytes(s[..|from|]);
      Text.CharsInPrefix(s, |from|);
      Text.ByteLengthSplit(s, |from|, |s|);
      assert s[..|s|] == s;
    }
  }

  lemma SecureIsDone(u: string)
    requires |u| >= 8 && u[..8] == "https://"
    ensures !HasScheme(u, "hxxp://") && !SplitsCharacter(u, 7)
  {
    assert Text.ToLower(u[..7])[1] == Text.Lower(u[1]) == 't';
    AsciiStart(u, 8);
  }

  lemma SchemeUndone(t: string)
    ensures HasScheme(t, "hxxps://") ==> Reschemed(t) == Some("https://" + t[8..])
    ensures HasScheme(t, "hxxp://") && !SplitsCharacter(t, 8) ==> Reschemed(t) == Some("http://" + t[7..])
    ensures !HasScheme(t, "hxxps://") && !HasScheme(t, "hxxp://") && !SplitsCharacter(t, 7) && !SplitsCharacter(t, 8)
            ==> Reschemed(t) == Some(t)
  {
    assert |"hxxps://"| == 8 && |"hxxp://"| == 7;
    ReschemedFull(t, "hxxps://", "https://");
    ReschemedFull(t, "hxxp://", "http://");
    if HasScheme(t, "hxxps://") {
      var u := "https://" + t[8..];
      SecureIsDone(u);
      ReschemedFull(u, "hxxp://", "http://");
      assert Text.ToLower(t[..8])[4] == 's' && Text.ToLower(t[..7])[4] == Text.Lower(t[4]);
    }
  }

  /** Refanging gives a fanged text back, its disguised scheme undone if it has one. */
  lemma RefangUndoesFanging(s: string, t: string)
    requires Fanged(s, t, FANGS) && IsClean(t)
    ensures HasScheme(t, "hxxps://") ==> Refang(s) == Some("https://" + t[8..])
    ensures HasScheme(t, "hxxp://") && !SplitsCharacter(t, 8) ==> Refang(s) == Some("http://" + t[7..])
    ensures !HasScheme(t, "hxxps://") && !HasScheme(t, "hxxp://") && !SplitsCharacter(t, 7) && !SplitsCharacter(t, 8)
            ==> Refang(s) == Some(t)
  {
    UndottedIs(s, t);
    SchemeUndone(t);
  }
}
