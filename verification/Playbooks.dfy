/**
 Playbook helpers: `{{name}}` interpolation and the host allowlist.
 */
module Playbooks {
  import opened Options

  // ---------------------------------------------------------------- placeholders

  predicate NameChar(c: char) {
    'a' <= c <= 'z' || 'A' <= c <= 'Z' || '0' <= c <= '9' || c == '_'
  }

  /** The name characters of the pattern, by code: digits, capitals, small letters and the underscore. */
  lemma NameCharsAreWordChars(c: char)
    ensures NameChar(c) <==> var code := c as int;
                             48 <= code <= 57 || 65 <= code <= 90 || 97 <= code <= 122 || code == 95
  {
  }

  /** The text from i to e is a complete placeholder. */
  ghost predicate IsPlaceholder(t: string, i: nat, e: nat) {
    && i + 5 <= e <= |t|
    && t[i] == '{' && t[i + 1] == '{' && t[e - 2] == '}' && t[e - 1] == '}'
    && forall k :: i + 2 <= k < e - 2 ==> NameChar(t[k])
  }

  /** The end of the run of name characters that starts at i. */
  function NameEnd(t: string, i: nat): (j: nat)
    requires i <= |t|
    ensures i <= j <= |t|
    ensures forall k :: i <= k < j ==> NameChar(t[k])
    ensures j < |t| ==> !NameChar(t[j])
    decreases |t| - i
  {
    if i < |t| && NameChar(t[i]) then NameEnd(t, i + 1) else i
  }

  /** Where a match of the placeholder pattern that starts at i ends. */
  function MatchAt(t: string, i: nat): (end: Option<nat>)
    requires i <= |t|
    ensures end.Some? ==> IsPlaceholder(t, i, end.value)
  {
    if i + 2 <= |t| && t[i] == '{' && t[i + 1] == '{' then
      var j := NameEnd(t, i + 2);
      if j > i + 2 && j + 2 <= |t| && t[j] == '}' && t[j + 1] == '}' then Some(j + 2) else None
    else None
  }

  lemma MatchIsPlaceholder(t: string, i: nat, e: nat)
    requires i <= |t|
    ensures MatchAt(t, i) == Some(e) <==> IsPlaceholder(t, i, e)
  {
    if IsPlaceholder(t, i, e) {
      var j := NameEnd(t, i + 2);
      assert !NameChar('}');
      assert j == e - 2;
    }
  }

  /** A placeholder starts at k. */
  ghost predicate StartsAt(t: string, k: nat) {
    exists e: nat :: IsPlaceholder(t, k, e)
  }

  lemma MatchIsStart(t: string, k: nat)
    requires k <= |t|
    ensures MatchAt(t, k).Some? <==> StartsAt(t, k)
  {
    if e: nat :| IsPlaceholder(t, k, e) {
      MatchIsPlaceholder(t, k, e);
    }
  }

  function ValueOf(vars: map<string, string>, name: string): string {
    if name in vars then vars[name] else ""
  }

  /** One pass of `replace` with the global pattern, from i on. */
  function InterpolateFrom(t: string, i: nat, vars: map<string, string>): string
    requires i <= |t|
    decreases |t| - i
  {
    if i == |t| then ""
    else
      match MatchAt(t, i)
      case Some(e) => ValueOf(vars, t[i + 2..e - 2]) + InterpolateFrom(t, e, vars)
      case None => [t[i]] + InterpolateFrom(t, i + 1, vars)
  }

  function Interpolate(t: string, vars: map<string, string>): string {
    InterpolateFrom(t, 0, vars)
  }

  // ---------------------------------------------------------------- a template is a list of pieces

  /** A name in double braces. */
  function Braced(name: string): string { ['{'] + ['{'] + name + ['}'] + ['}'] }

  datatype Piece = Literal(text: string) | Placeholder(name: string)
  {
    function Source(): string { if Literal? then text else Braced(name) }
    function Render(vars: map<string, string>): string { if Literal? then text else ValueOf(vars, name) }
  }

  /** Where the first placeholder at or after i starts, or the end of the template. */
  function FirstMatch(t: string, i: nat): (s: nat)
    requires i <= |t|
    ensures i <= s <= |t|
    ensures forall k :: i <= k < s ==> MatchAt(t, k).None?
    ensures s < |t| ==> MatchAt(t, s).Some?
    decreases |t| - i
  {
    if i == |t| || MatchAt(t, i).Some? then i else FirstMatch(t, i + 1)
  }

  function Split(t: string, i: nat): seq<Piece>
    requires i <= |t|
    decreases |t| - i
  {
    if i == |t| then []
    else
      match MatchAt(t, i)
      case Some(e) => [Placeholder(t[i + 2..e - 2])] + Split(t, e)
      case None => [Literal(t[i..FirstMatch(t, i)])] + Split(t, FirstMatch(t, i))
  }

  function Sources(ps: seq<Piece>): string {
    if ps == [] then "" else ps[0].Source() + Sources(ps[1..])
  }

  function Rendered(ps: seq<Piece>, vars: map<string, string>): string {
    if ps == [] then "" else ps[0].Render(vars) + Rendered(ps[1..], vars)
  }

  /** The literal x stands at i and no placeholder starts inside it. */
  ghost predicate LiteralAt(t: string, i: nat, x: string) {
    x != "" && i + |x| <= |t| && t[i..i + |x|] == x && forall k :: i <= k < i + |x| ==> !StartsAt(t, k)
  }

  ghost predicate PlaceholderAt(t: string, i: nat, n: string) {
    IsPlaceholder(t, i, i + |n| + 4) && t[i + 2..i + |n| + 2] == n
  }

  /** Reading the template from i on as `ps`: literals are as long as can be and no placeholder starts
      inside one, so matches are leftmost and never overlap. */
  ghost predicate Reads(t: string, i: nat, ps: seq<Piece>)
    requires i <= |t|
    decreases |ps|
  {
    if ps == [] then i == |t|
    else
      match ps[0]
      case Literal(x) => LiteralAt(t, i, x) && (|ps| > 1 ==> ps[1].Placeholder?) && Reads(t, i + |x|, ps[1..])
      case Placeholder(n) => PlaceholderAt(t, i, n) && Reads(t, i + |n| + 4, ps[1..])
  }

  lemma {:induction false} SplitReads(t: string, i: nat)
    requires i <= |t|
    ensures Reads(t, i, Split(t, i))
    decreases |t| - i
  {
    if i < |t| {
      match MatchAt(t, i) {
        case Some(e) =>
          SplitReads(t, e);
          ReadsPlaceholder(t, i, e, Split(t, e));
          SplitAtMatch(t, i, e);
        case None =>
          var s := FirstMatch(t, i);
          SplitReads(t, s);
          SplitFromMatch(t, s);
          ReadsLiteral(t, i, s, Split(t, s));
          SplitBeforeMatch(t, i);
      }
    }
  }

  lemma SplitBeforeMatch(t: string, i: nat)
    requires i < |t| && MatchAt(t, i).None?
    ensures i < FirstMatch(t, i)
    ensures Split(t, i) == [Literal(t[i..FirstMatch(t, i)])] + Split(t, FirstMatch(t, i))
  {
  }

  lemma SplitFromMatch(t: string, s: nat)
    requires s <= |t| && (s < |t| ==> MatchAt(t, s).Some?)
    ensures Split(t, s) != [] ==> Split(t, s)[0].Placeholder?
  {
  }

  lemma ReadsPlaceholder(t: string, i: nat, e: nat, rest: seq<Piece>)
    requires IsPlaceholder(t, i, e) && Reads(t, e, rest)
    ensures Reads(t, i, [Placeholder(t[i + 2..e - 2])] + rest)
  {
    var ps := [Placeholder(t[i + 2..e - 2])] + rest;
    assert ps[1..] == rest;
    assert PlaceholderAt(t, i, ps[0].name);
  }

  lemma ReadsLiteral(t: string, i: nat, s: nat, rest: seq<Piece>)
    requires i < s <= |t| && Reads(t, s, rest)
    requires forall k :: i <= k < s ==> MatchAt(t, k).None?
    requires rest != [] ==> rest[0].Placeholder?
    ensures Reads(t, i, [Literal(t[i..s])] + rest)
  {
    var ps := [Literal(t[i..s])] + rest;
    assert ps[1..] == rest;
    LiteralUpTo(t, i, s);
  }

  lemma LiteralUpTo(t: string, i: nat, s: nat)
    requires i < s <= |t|
    requires forall k :: i <= k < s ==> MatchAt(t, k).None?
    ensures LiteralAt(t, i, t[i..s])
  {
    forall k | i <= k < s
      ensures !StartsAt(t, k)
    {
      MatchIsStart(t, k);
    }
  }

  /** There is one such reading only. */
  lemma {:induction false} ReadingIsUnique(t: string, i: nat, ps: seq<Piece>)
    requires i <= |t| && Reads(t, i, ps)
    ensures ps == Split(t, i)
    decreases |ps|
  {
    if ps != [] {
      var rest := ps[1..];
      assert ps == [ps[0]] + rest;
      match ps[0] {
        case Literal(x) =>
          ReadingIsUnique(t, i + |x|, rest);
          NextStopsAt(t, i + |x|, rest);
          SplitLiteral(t, i, x);
        case Placeholder(n) =>
          ReadingIsUnique(t, i + |n| + 4, rest);
          SplitPlaceholder(t, i, n);
      }
    }
  }

  lemma NextStopsAt(t: string, m: nat, rest: seq<Piece>)
    requires m <= |t| && Reads(t, m, rest) && (rest != [] ==> rest[0].Placeholder?)
    ensures FirstMatch(t, m) == m
  {
    if rest != [] {
      MatchIsPlaceholder(t, m, m + |rest[0].name| + 4);
    }
  }

  lemma SplitLiteral(t: string, i: nat, x: string)
    requires LiteralAt(t, i, x) && FirstMatch(t, i + |x|) == i + |x|
    ensures Split(t, i) == [Literal(x)] + Split(t, i + |x|)
  {
    forall k | i <= k < i + |x|
      ensures MatchAt(t, k).None?
    {
      MatchIsStart(t, k);
    }
    SkipLiteral(t, i, i + |x|);
  }

  lemma SplitPlaceholder(t: string, i: nat, n: string)
    requires PlaceholderAt(t, i, n)
    ensures Split(t, i) == [Placeholder(n)] + Split(t, i + |n| + 4)
  {
    MatchIsPlaceholder(t, i, i + |n| + 4);
    SplitAtMatch(t, i, i + |n| + 4);
  }

  lemma SplitAtMatch(t: string, i: nat, e: nat)
    requires i < |t| && MatchAt(t, i) == Some(e)
    ensures Split(t, i) == [Placeholder(t[i + 2..e - 2])] + Split(t, e)
  {
  }

  lemma {:induction false} SkipLiteral(t: string, i: nat, m: nat)
    requires i <= m <= |t|
    requires forall k :: i <= k < m ==> MatchAt(t, k).None?
    ensures FirstMatch(t, i) == FirstMatch(t, m)
    decreases m - i
  {
    if i < m {
      SkipLiteral(t, i + 1, m);
    }
  }

  lemma SourceOfPlaceholder(t: string, i: nat, n: string)
    requires PlaceholderAt(t, i, n)
    ensures t[i..i + |n| + 4] == Braced(n)
  {
    var e := i + |n| + 4;
    assert t[i..e] == [t[i]] + [t[i + 1]] + t[i + 2..e - 2] + [t[e - 2]] + [t[e - 1]];
  }

  /** The first piece stands at i and the others follow it. */
  lemma PieceStandsAt(t: string, i: nat, ps: seq<Piece>) returns (m: nat)
    requires i <= |t| && ps != [] && Reads(t, i, ps)
    ensures i <= m <= |t| && t[i..m] == ps[0].Source() && Reads(t, m, ps[1..])
  {
    match ps[0] {
      case Literal(x) => m := i + |x|;
      case Placeholder(n) =>
        m := i + |n| + 4;
        SourceOfPlaceholder(t, i, n);
    }
  }

  lemma {:induction false} SourcesOfReading(t: string, i: nat, ps: seq<Piece>)
    requires i <= |t| && Reads(t, i, ps)
    ensures Sources(ps) == t[i..]
    decreases |ps|
  {
    if ps != [] {
      var next := PieceStandsAt(t, i, ps);
      SourcesOfReading(t, next, ps[1..]);
      SourcesFollow(t, i, next, ps);
    }
  }

  lemma SourcesFollow(t: string, i: nat, m: nat, ps: seq<Piece>)
    requires ps != [] && i <= m <= |t|
    requires t[i..m] == ps[0].Source() && Sources(ps[1..]) == t[m..]
    ensures Sources(ps) == t[i..]
  {
    assert t[i..] == t[i..m] + t[m..];
  }

  /** A template is its pieces put together again, no literal piece holds a complete placeholder, and
      it can be read in no other way. */
  lemma TemplateSplits(t: string, ps: seq<Piece>)
    ensures Sources(Split(t, 0)) == t
    ensures Reads(t, 0, ps) <==> ps == Split(t, 0)
    ensures forall p, a, b :: p in Split(t, 0) && p.Literal? ==> !IsPlaceholder(p.text, a, b)
  {
    SplitReads(t, 0);
    SourcesOfReading(t, 0, Split(t, 0));
    assert t[0..] == t;
    if Reads(t, 0, ps) {
      ReadingIsUnique(t, 0, ps);
    }
    LiteralsHoldNone(t, 0, Split(t, 0));
  }

  lemma {:induction false} LiteralsHoldNone(t: string, i: nat, ps: seq<Piece>)
    requires i <= |t| && Reads(t, i, ps)
    ensures forall p, a, b :: p in ps && p.Literal? ==> !IsPlaceholder(p.text, a, b)
    decreases |ps|
  {
    if ps != [] {
      var next := i + |ps[0].Source()|;
      LiteralsHoldNone(t, next, ps[1..]);
      if ps[0].Literal? {
        forall a, b
          ensures !IsPlaceholder(ps[0].text, a, b)
        {
          if IsPlaceholder(ps[0].text, a, b) {
            InnerPlaceholder(t, i, ps[0].text, a, b);
          }
        }
      }
    }
  }

  lemma InnerPlaceholder(t: string, i: nat, x: string, a: nat, b: nat)
    requires i + |x| <= |t| && t[i..i + |x|] == x && IsPlaceholder(x, a, b)
    ensures StartsAt(t, i + a) && a < |x|
  {
    assert forall k :: 0 <= k < |x| ==> x[k] == t[i + k];
    forall k | i + a + 2 <= k < i + b - 2
      ensures NameChar(t[k])
    {
      assert x[k - i] == t[k];
    }
    assert IsPlaceholder(t, i + a, i + b);
  }

  /** Interpolation renders each piece once; an inserted value is not looked at again. */
  lemma {:induction false} InterpolationRendersPieces(t: string, i: nat, vars: map<string, string>)
    requires i <= |t|
    ensures InterpolateFrom(t, i, vars) == Rendered(Split(t, i), vars)
    decreases |t| - i
  {
    if i < |t| {
      var ps := Split(t, i);
      match MatchAt(t, i) {
        case Some(e) =>
          InterpolationRendersPieces(t, e, vars);
          assert ps[1..] == Split(t, e);
        case None =>
          var s := FirstMatch(t, i);
          InterpolationRendersPieces(t, s, vars);
          CopyLiteral(t, i, s, vars);
          assert ps[1..] == Split(t, s);
      }
    }
  }

  lemma {:induction false} CopyLiteral(t: string, i: nat, s: nat, vars: map<string, string>)
    requires i <= s <= |t|
    requires forall k :: i <= k < s ==> MatchAt(t, k).None?
    ensures InterpolateFrom(t, i, vars) == t[i..s] + InterpolateFrom(t, s, vars)
    decreases s - i
  {
    if i < s {
      CopyLiteral(t, i + 1, s, vars);
      PrependOne(t, i, s, InterpolateFrom(t, s, vars));
    }
  }

  lemma PrependOne(t: string, i: nat, s: nat, tail: string)
    requires i < s <= |t|
    ensures [t[i]] + (t[i + 1..s] + tail) == t[i..s] + tail
  {
  }

  /** A template without a placeholder is left as it is, whatever the variables. */
  lemma NoPlaceholderNoChange(t: string, vars: map<string, string>)
    requires forall i, e :: !IsPlaceholder(t, i, e)
    ensures Interpolate(t, vars) == t
  {
    forall k | 0 <= k < |t|
      ensures MatchAt(t, k).None?
    {
      MatchIsStart(t, k);
    }
    CopyLiteral(t, 0, |t|, vars);
    assert t[0..|t|] == t;
  }

  /** A lone placeholder becomes the value of its name, and nothing when the name has none. */
  lemma LonePlaceholder(name: string, vars: map<string, string>)
    requires name != "" && forall i :: 0 <= i < |name| ==> NameChar(name[i])
    ensures Interpolate("{{" + name + "}}", vars) == if name in vars then vars[name] else ""
  {
    var t := "{{" + name + "}}";
    assert t[2..|t| - 2] == name;
    assert forall k :: 2 <= k < |t| - 2 ==> t[k] == name[k - 2];
    MatchIsPlaceholder(t, 0, |t|);
    assert InterpolateFrom(t, |t|, vars) == "";
  }

  // ---------------------------------------------------------------- hosts

  function LowerChar(c: char): char {
    if 'A' <= c <= 'Z' then c - 'A' + 'a' else c
  }

  lemma LowerCaseLetters(i: nat)
    requires i < 26
    ensures LowerChar("ABCDEFGHIJKLMNOPQRSTUVWXYZ"[i]) == "abcdefghijklmnopqrstuvwxyz"[i]
    ensures forall c :: c !in "ABCDEFGHIJKLMNOPQRSTUVWXYZ" ==> LowerChar(c) == c
  {
  }

  /** toLowerCase on the characters a host name may hold. */
  function Lower(s: string): string {
    seq(|s|, i requires 0 <= i < |s| => LowerChar(s[i]))
  }

  predicate EndsWith(s: string, tail: string) {
    |tail| <= |s| && s[|s| - |tail|..] == tail
  }

  /** One more character in front of labels. */
  function Push(c: char, ls: seq<string>): (r: seq<string>)
    requires |ls| >= 1
    ensures |r| >= 1
  {
    if c == '.' then [""] + ls else [[c] + ls[0]] + ls[1..]
  }

  /** The dot-separated labels of a name. */
  function Labels(s: string): (ls: seq<string>)
    ensures |ls| >= 1
  {
    if s == "" then [""] else Push(s[0], Labels(s[1..]))
  }

  function Joined(ls: seq<string>): string
    requires |ls| >= 1
  {
    if |ls| == 1 then ls[0] else ls[0] + "." + Joined(ls[1..])
  }

  lemma JoinedCons(x: string, rest: seq<string>)
    ensures Joined([x] + rest) == if rest == [] then x else x + "." + Joined(rest)
  {
    assert ([x] + rest)[1..] == rest;
  }

  lemma JoinedDot(ls: seq<string>)
    requires |ls| >= 1
    ensures Joined([""] + ls) == ['.'] + Joined(ls)
  {
    JoinedCons("", ls);
    assert "" + "." == ['.'];
  }

  lemma ConsConcat(c: char, x: string, y: string)
    ensures ([c] + x) + y == [c] + (x + y)
  {
  }

  lemma JoinedLonger(c: char, x: string, rest: seq<string>)
    ensures Joined([[c] + x] + rest) == [c] + Joined([x] + rest)
  {
    JoinedCons(x, rest);
    JoinedCons([c] + x, rest);
    if rest != [] {
      ConsConcat(c, x, ".");
      ConsConcat(c, x + ".", Joined(rest));
    }
  }

  lemma JoinedPush(c: char, ls: seq<string>)
    requires |ls| >= 1
    ensures Joined(Push(c, ls)) == [c] + Joined(ls)
  {
    if c == '.' {
      JoinedDot(ls);
    } else {
      var x, rest := ls[0], ls[1..];
      assert ls == [x] + rest && Push(c, ls) == [[c] + x] + rest;
      JoinedLonger(c, x, rest);
    }
  }

  lemma {:induction false} LabelsJoined(s: string)
    ensures Joined(Labels(s)) == s
  {
    if s != "" {
      LabelsJoined(s[1..]);
      JoinedPush(s[0], Labels(s[1..]));
    }
  }

  lemma PushOnto(c: char, l: seq<string>, m: seq<string>)
    requires |l| >= 1
    ensures Push(c, l + m) == Push(c, l) + m
  {
    assert (l + m)[1..] == l[1..] + m;
  }

  lemma {:induction false} LabelsOfDotted(a: string, b: string)
    ensures Labels(a + ("." + b)) == Labels(a) + Labels(b)
  {
    var s := a + ("." + b);
    if a == "" {
      assert s[0] == '.' && s[1..] == b;
    } else {
      LabelsOfDotted(a[1..], b);
      assert s[0] == a[0] && s[1..] == a[1..] + ("." + b);
      PushOnto(a[0], Labels(a[1..]), Labels(b));
    }
  }

  lemma {:induction false} JoinedParts(xs: seq<string>, ys: seq<string>)
    requires |xs| >= 1 && |ys| >= 1
    ensures Joined(xs + ys) == Joined(xs) + "." + Joined(ys)
  {
    assert (xs + ys)[1..] == xs[1..] + ys;
    if |xs| > 1 {
      JoinedParts(xs[1..], ys);
      assert xs[0] + "." + (Joined(xs[1..]) + "." + Joined(ys)) == (xs[0] + "." + Joined(xs[1..])) + "." + Joined(ys);
    } else {
      assert xs[1..] + ys == ys;
    }
  }

  predicate LabelSuffix(host: string, suffix: string) {
    var h, b := Labels(host), Labels(suffix);
    |b| <= |h| && h[|h| - |b|..] == b
  }

  lemma SuffixGivesLabels(host: string, suffix: string)
    requires host == suffix || EndsWith(host, "." + suffix)
    ensures LabelSuffix(host, suffix)
  {
    if host != suffix {
      var front := host[..|host| - |"." + suffix|];
      assert host == front + ("." + suffix);
      LabelsOfDotted(front, suffix);
    }
  }

  lemma LabelsGiveSuffix(host: string, suffix: string)
    requires LabelSuffix(host, suffix)
    ensures host == suffix || EndsWith(host, "." + suffix)
  {
    LabelsJoined(host);
    LabelsJoined(suffix);
    JoinedSuffix(Labels(host), Labels(suffix));
  }

  lemma JoinedSuffix(h: seq<string>, b: seq<string>)
    requires 1 <= |b| <= |h| && h[|h| - |b|..] == b
    ensures Joined(h) == Joined(b) || EndsWith(Joined(h), "." + Joined(b))
  {
    var front := h[..|h| - |b|];
    assert h == front + b;
    if front == [] {
      assert h == b;
    } else {
      JoinedParts(front, b);
      EndsInTail(Joined(front), Joined(b));
    }
  }

  lemma EndsInTail(front: string, suffix: string)
    ensures EndsWith(front + "." + suffix, "." + suffix)
  {
    assert front + "." + suffix == front + ("." + suffix);
  }

  /** Equal to a base or ending in a dot and the base: the labels of the base end the labels of the host. */
  lemma SuffixIsLabelSuffix(host: string, suffix: string)
    ensures host == suffix || EndsWith(host, "." + suffix) <==> LabelSuffix(host, suffix)
  {
    if LabelSuffix(host, suffix) {
      LabelsGiveSuffix(host, suffix);
    } else if host == suffix || EndsWith(host, "." + suffix) {
      SuffixGivesLabels(host, suffix);
    }
  }

  /** A host is allowed exactly when the labels of some allowed base end the labels of the lower-cased
      host: `evil-a.com` does not pass for `a.com`. */
  method HostnameAllowed(hostname: string, allowlist: set<string>) returns (allowed: bool)
    ensures allowed <==> exists suffix :: suffix in allowlist && LabelSuffix(Lower(hostname), suffix)
  {
    var h := Lower(hostname);
    if h in allowlist {
      SuffixIsLabelSuffix(h, h);
      return true;
    }
    var rest := allowlist;
    while rest != {}
      invariant rest <= allowlist
      invariant forall suffix :: suffix in allowlist - rest ==> !LabelSuffix(h, suffix)
      decreases |rest|
    {
      var suffix :| suffix in rest;
      SuffixIsLabelSuffix(h, suffix);
      if EndsWith(h, "." + suffix) {
        return true;
      }
      rest := rest - {suffix};
    }
    return false;
  }
}
