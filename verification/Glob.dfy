/** The glob matcher of the file layer, against the language its pattern denotes. Characters are
    their codes, compared as the numbers they are. */
module Glob {
  type Text = seq<int>

  const STAR: int := 42
  const QUESTION: int := 63
  const OPEN: int := 91
  const CLOSE: int := 93
  const ESCAPE: int := 92
  const BANG: int := 33
  const DASH: int := 45

  datatype Range = Range(lo: int, hi: int)

  /** Never is an escape or a bracket that the pattern ends inside of. */
  datatype Token = Star | Any | Lit(c: int) | Set(invert: bool, ranges: seq<Range>) | Never

  // ---------------------------------------------------------------- what a token list means

  predicate InRanges(rs: seq<Range>, c: int) {
    exists i :: 0 <= i < |rs| && rs[i].lo <= c <= rs[i].hi
  }

  predicate Accepts(t: Token, c: int) {
    match t
    case Star => true
    case Any => true
    case Lit(d) => c == d
    case Set(invert, rs) => InRanges(rs, c) != invert
    case Never => false
  }

  /** A star covers any text; every other token covers one character it accepts. */
  predicate Covers(t: Token, w: Text) {
    t.Star? || (|w| == 1 && Accepts(t, w[0]))
  }

  function Concat(parts: seq<Text>): Text {
    if parts == [] then [] else parts[0] + Concat(parts[1..])
  }

  ghost predicate Cut(ts: seq<Token>, s: Text, parts: seq<Text>) {
    |parts| == |ts| && Concat(parts) == s && forall i :: 0 <= i < |ts| ==> Covers(ts[i], parts[i])
  }

  /** The language: the text can be cut into one part per token. */
  ghost predicate InLanguage(ts: seq<Token>, s: Text) {
    exists parts :: Cut(ts, s, parts)
  }

  // ---------------------------------------------------------------- how a pattern is read

  /** The ranges of a bracket from i up to its closing bracket, and the position behind it; a closing
      bracket at `start` is an ordinary character. */
  function Items(p: Text, i: nat, start: nat): (r: (bool, seq<Range>, nat))
    requires i <= |p|
    ensures r.0 ==> i < r.2 <= |p|
    decreases |p| - i
  {
    if i == |p| then (false, [], i)
    else if p[i] == CLOSE && i > start then (true, [], i + 1)
    else if i + 1 == |p| then (false, [], i)
    else if p[i + 1] == DASH then
      if i + 2 == |p| then (false, [], i)
      else var r := Items(p, i + 3, start); (r.0, [Range(p[i], p[i + 2])] + r.1, r.2)
    else var r := Items(p, i + 1, start); (r.0, [Range(p[i], p[i])] + r.1, r.2)
  }

  /** A bracket expression; the position is that of the first character inside. */
  function Bracket(p: Text, i: nat): (r: (Token, nat))
    requires i <= |p|
    ensures r.0.Never? || (r.0.Set? && i < r.1 <= |p|)
  {
    if i == |p| then (Never, i)
    else
      var invert := p[i] == BANG;
      var start := if invert then i + 1 else i;
      var r := Items(p, start, start);
      if r.0 then (Set(invert, r.1), r.2) else (Never, i)
  }

  /** The first token of a pattern and how much of the pattern it is. When the question mark is not
      allowed as a wildcard it opens a bracket. */
  function Head(p: Text, q: bool): (r: (Token, nat))
    requires p != []
    ensures r.0.Never? || 0 < r.1 <= |p|
  {
    if p[0] == STAR then (Star, 1)
    else if p[0] == QUESTION && q then (Any, 1)
    else if p[0] == QUESTION || p[0] == OPEN then Bracket(p, 1)
    else if p[0] == ESCAPE then (if |p| == 1 then (Never, 1) else (Lit(p[1]), 2))
    else (Lit(p[0]), 1)
  }

  function Tokens(p: Text, q: bool): seq<Token>
    decreases |p|
  {
    if p == [] then []
    else
      var h := Head(p, q);
      if h.0.Never? then [Never] else [h.0] + Tokens(p[h.1..], q)
  }

  // ---------------------------------------------------------------- the language, token by token

  lemma LanguageEmpty(s: Text)
    ensures InLanguage([], s) <==> s == []
  {
    assert s == [] ==> Cut([], s, []);
  }

  lemma CutTail(ts: seq<Token>, s: Text, parts: seq<Text>)
    requires ts != [] && Cut(ts, s, parts)
    ensures s == parts[0] + Concat(parts[1..]) && Cut(ts[1..], Concat(parts[1..]), parts[1..])
  {
  }

  lemma CutCons(ts: seq<Token>, s: Text, w: Text, parts: seq<Text>)
    requires ts != [] && Covers(ts[0], w) && Cut(ts[1..], s, parts)
    ensures Cut(ts, w + s, [w] + parts)
  {
    assert ([w] + parts)[1..] == parts;
    forall i | 0 <= i < |ts| ensures Covers(ts[i], ([w] + parts)[i]) {
      if i > 0 { assert ts[1..][i - 1] == ts[i]; }
    }
  }

  lemma LanguageOne(ts: seq<Token>, s: Text)
    requires ts != [] && !ts[0].Star?
    ensures InLanguage(ts, s) <==> s != [] && Accepts(ts[0], s[0]) && InLanguage(ts[1..], s[1..])
  {
    if InLanguage(ts, s) {
      var parts :| Cut(ts, s, parts);
      CutTail(ts, s, parts);
      assert s[1..] == Concat(parts[1..]);
    }
    if s != [] && Accepts(ts[0], s[0]) && InLanguage(ts[1..], s[1..]) {
      var parts :| Cut(ts[1..], s[1..], parts);
      CutCons(ts, s[1..], [s[0]], parts);
      assert [s[0]] + s[1..] == s;
    }
  }

  /** A star in front: some suffix is in the rest of the language. */
  lemma LanguageStar(ts: seq<Token>, s: Text)
    requires ts != [] && ts[0].Star?
    ensures InLanguage(ts, s) <==> exists k :: 0 <= k <= |s| && InLanguage(ts[1..], s[k..])
  {
    if InLanguage(ts, s) {
      var parts :| Cut(ts, s, parts);
      CutTail(ts, s, parts);
      assert s[|parts[0]|..] == Concat(parts[1..]);
    }
    if k :| 0 <= k <= |s| && InLanguage(ts[1..], s[k..]) {
      var parts :| Cut(ts[1..], s[k..], parts);
      CutCons(ts, s[k..], s[..k], parts);
      assert s[..k] + s[k..] == s;
    }
  }

  /** Two stars are one. */
  lemma LanguageStars(ts: seq<Token>, s: Text)
    requires |ts| >= 2 && ts[0].Star? && ts[1].Star?
    ensures InLanguage(ts, s) <==> InLanguage(ts[1..], s)
  {
    LanguageStar(ts, s);
    LanguageStar(ts[1..], s);
    if k :| 0 <= k <= |s| && InLanguage(ts[1..], s[k..]) {
      LanguageStar(ts[1..], s[k..]);
      var j :| 0 <= j <= |s[k..]| && InLanguage(ts[1..][1..], s[k..][j..]);
      assert s[k..][j..] == s[k + j..];
    }
    if InLanguage(ts[1..], s) { assert s[0..] == s; }
  }

  lemma LanguageStarAlone(ts: seq<Token>, s: Text)
    requires ts == [Star]
    ensures InLanguage(ts, s)
  {
    LanguageStar(ts, s);
    LanguageEmpty(s[|s|..]);
    assert ts[1..] == [] && s[|s|..] == [];
  }

  /** Only stars match the empty text. */
  lemma LanguageOfNothing(ts: seq<Token>)
    ensures InLanguage(ts, []) <==> forall i :: 0 <= i < |ts| ==> ts[i].Star?
  {
    if ts == [] {
      LanguageEmpty([]);
    } else if !ts[0].Star? {
      LanguageOne(ts, []);
    } else {
      LanguageStar(ts, []);
      LanguageOfNothing(ts[1..]);
      var none: Text := []; assert none[0..] == none;
      assert forall i :: 1 <= i < |ts| ==> ts[i] == ts[1..][i - 1];
    }
  }

  // ---------------------------------------------------------------- how a pattern is written

  /** A member of a bracket: one character, or a range of them. */
  datatype Member = One(c: int) | Span(lo: int, hi: int)

  function MemberText(m: Member): Text { if m.One? then [m.c] else [m.lo, DASH, m.hi] }

  function MemberRange(m: Member): Range { if m.One? then Range(m.c, m.c) else Range(m.lo, m.hi) }

  function First(m: Member): int { if m.One? then m.c else m.lo }

  function MembersText(ms: seq<Member>): Text {
    if ms == [] then [] else MemberText(ms[0]) + MembersText(ms[1..])
  }

  function Ranges(ms: seq<Member>): seq<Range> {
    if ms == [] then [] else [MemberRange(ms[0])] + Ranges(ms[1..])
  }

  /** A closing bracket may begin only the first member, and a single character must not be followed by a dash. */
  predicate LegalMembers(ms: seq<Member>, first: bool) {
    ms == [] || (Begins(ms[0], ms[1..], first) && LegalMembers(ms[1..], false))
  }

  predicate Begins(m: Member, rest: seq<Member>, first: bool) {
    (first || First(m) != CLOSE) && (m.One? && rest != [] ==> First(rest[0]) != DASH)
  }

  /** The ways to write one element of a pattern. */
  datatype Element =
    | AnyText
    | AnyChar
    | Plain(c: int)
    | Escaped(c: int)
    | Bracketed(opener: int, invert: bool, members: seq<Member>)

  function ElementText(e: Element): Text {
    match e
    case AnyText => [STAR]
    case AnyChar => [QUESTION]
    case Plain(c) => [c]
    case Escaped(c) => [ESCAPE, c]
    case Bracketed(o, invert, ms) => (if invert then [o, BANG] else [o]) + MembersText(ms) + [CLOSE]
  }

  /** What it stands for. */
  function ElementToken(e: Element): Token {
    match e
    case AnyText => Star
    case AnyChar => Any
    case Plain(c) => Lit(c)
    case Escaped(c) => Lit(c)
    case Bracketed(_, invert, ms) => Set(invert, Ranges(ms))
  }

  predicate Ordinary(c: int) { c != STAR && c != QUESTION && c != OPEN && c != ESCAPE }

  /** Where the question mark is no wildcard it opens a bracket. A bracket has a member, and an exclamation mark in
      front of the members would invert it. */
  predicate Legal(e: Element, q: bool) {
    match e
    case AnyText => true
    case AnyChar => q
    case Plain(c) => Ordinary(c)
    case Escaped(_) => true
    case Bracketed(o, invert, ms) =>
      && (o == OPEN || (o == QUESTION && !q)) && ms != [] && LegalMembers(ms, true)
      && (!invert ==> First(ms[0]) != BANG)
  }

  predicate AllLegal(es: seq<Element>, q: bool) { forall i :: 0 <= i < |es| ==> Legal(es[i], q) }

  function Write(es: seq<Element>): Text {
    if es == [] then [] else ElementText(es[0]) + Write(es[1..])
  }

  function Meaning(es: seq<Element>): (r: seq<Token>)
    ensures |r| == |es|
  {
    if es == [] then [] else [ElementToken(es[0])] + Meaning(es[1..])
  }

  predicate Listed(ms: seq<Member>, c: int) {
    exists i :: 0 <= i < |ms| && if ms[i].One? then c == ms[i].c else ms[i].lo <= c <= ms[i].hi
  }

  /** The texts an element stands for: any at all, one character, the character itself, or one of those in the bracket
      or, with an exclamation mark, one that is not. */
  predicate Stands(e: Element, w: Text) {
    match e
    case AnyText => true
    case AnyChar => |w| == 1
    case Plain(c) => w == [c]
    case Escaped(c) => w == [c]
    case Bracketed(_, invert, ms) => |w| == 1 && (if invert then !Listed(ms, w[0]) else Listed(ms, w[0]))
  }

  lemma {:induction false} RangesMean(ms: seq<Member>, c: int)
    ensures InRanges(Ranges(ms), c) <==> Listed(ms, c)
  {
    if ms != [] {
      InRangesCons(MemberRange(ms[0]), Ranges(ms[1..]), c);
      RangesMean(ms[1..], c);
      assert forall i :: 0 < i < |ms| ==> ms[i] == ms[1..][i - 1];
    }
  }

  lemma StandsCovers(e: Element, w: Text)
    ensures Stands(e, w) <==> Covers(ElementToken(e), w)
  {
    if e.Bracketed? && |w| == 1 { RangesMean(e.members, w[0]); }
  }

  lemma {:induction false} MeaningAt(es: seq<Element>, i: nat)
    requires i < |es|
    ensures Meaning(es)[i] == ElementToken(es[i])
  {
    if i > 0 { MeaningAt(es[1..], i - 1); }
  }

  lemma MembersStart(ms: seq<Member>, rest: Text)
    ensures var t := MembersText(ms) + ([CLOSE] + rest); t != [] && t[0] == if ms == [] then CLOSE else First(ms[0])
  {
  }

  lemma {:induction false} ItemsWritten(pre: Text, ms: seq<Member>, rest: Text, start: nat)
    requires start <= |pre| && (start == |pre| ==> ms != []) && LegalMembers(ms, |pre| == start)
    ensures Items(pre + (MembersText(ms) + ([CLOSE] + rest)), |pre|, start) == (true, Ranges(ms),
      |pre| + |MembersText(ms)| + 1)
    decreases |ms|
  {
    var p := pre + (MembersText(ms) + ([CLOSE] + rest));
    if ms == [] {
      assert MembersText(ms) + ([CLOSE] + rest) == [CLOSE] + rest && p[|pre|] == CLOSE;
    } else {
      var w, behind := MemberText(ms[0]), MembersText(ms[1..]) + ([CLOSE] + rest);
      assert p == (pre + w) + behind;
      MembersStart(ms[1..], rest);
      assert p[|pre|] == w[0] == First(ms[0]);
      assert p[|pre| + |w|] == behind[0];
      if ms[0].Span? { assert p[|pre| + 1] == w[1] && p[|pre| + 2] == w[2]; }
      ItemsWritten(pre + w, ms[1..], rest, start);
    }
  }

  lemma BracketWritten(e: Element, rest: Text, q: bool)
    requires Legal(e, q) && e.Bracketed?
    ensures Bracket(ElementText(e) + rest, 1) == (ElementToken(e), |ElementText(e)|)
  {
    var pre, ms := if e.invert then [e.opener, BANG] else [e.opener], e.members;
    var p := pre + (MembersText(ms) + ([CLOSE] + rest));
    assert ElementText(e) + rest == p;
    MembersStart(ms, rest);
    assert p[|pre|] == (MembersText(ms) + ([CLOSE] + rest))[0];
    ItemsWritten(pre, ms, rest, |pre|);
  }

  lemma HeadWritten(e: Element, rest: Text, q: bool)
    requires Legal(e, q)
    ensures Head(ElementText(e) + rest, q) == (ElementToken(e), |ElementText(e)|)
  {
    if e.Bracketed? { BracketWritten(e, rest, q); }
  }

  lemma TokensHead(t: Token, w: Text, rest: Text, q: bool)
    requires w != [] && Head(w + rest, q) == (t, |w|) && !t.Never?
    ensures Tokens(w + rest, q) == [t] + Tokens(rest, q)
  {
    assert (w + rest)[|w|..] == rest;
  }

  /** Reading what was written, in whatever way, gives back what was meant. */
  lemma {:induction false} TokensWritten(es: seq<Element>, q: bool)
    requires AllLegal(es, q)
    ensures Tokens(Write(es), q) == Meaning(es)
  {
    if es != [] {
      var w, rest := ElementText(es[0]), Write(es[1..]);
      HeadWritten(es[0], rest, q);
      TokensHead(ElementToken(es[0]), w, rest, q);
      assert AllLegal(es[1..], q);
      TokensWritten(es[1..], q);
    }
  }

  /** The member that begins at i, and what is read behind it. */
  lemma MemberRead(p: Text, i: nat, start: nat) returns (m: Member, n: nat)
    requires start <= i <= |p| && Items(p, i, start).0 && !(p[i] == CLOSE && i > start)
    ensures i < n == i + |MemberText(m)| <= |p| && First(m) == p[i] && p[i..n] == MemberText(m)
    ensures var r, rest := Items(p, i, start), Items(p, n, start);
      rest.0 && r.1 == [MemberRange(m)] + rest.1 && r.2 == rest.2
    ensures m.One? ==> n < |p| && p[n] != DASH
  {
    m := if p[i + 1] == DASH then Span(p[i], p[i + 2]) else One(p[i]);
    n := i + |MemberText(m)|;
  }

  /** The members of a bracket that closes. */
  lemma {:induction false} ItemsSpelled(p: Text, i: nat, start: nat) returns (ms: seq<Member>)
    requires start <= i <= |p| && Items(p, i, start).0
    ensures var r := Items(p, i, start);
      p[i..r.2] == MembersText(ms) + [CLOSE] && Ranges(ms) == r.1 && (i == start ==> ms != [])
    ensures LegalMembers(ms, i == start) && (ms != [] ==> First(ms[0]) == p[i]) && (ms == [] ==> p[i] == CLOSE)
    decreases |p| - i
  {
    var r := Items(p, i, start);
    if p[i] == CLOSE && i > start {
      ms := [];
      assert p[i..i + 1] == [CLOSE];
    } else {
      var m, n := MemberRead(p, i, start);
      var rest := ItemsSpelled(p, n, start);
      ms := [m] + rest;
      MoreMembers(m, rest, i == start);
      SpelledOn(p, i, n, r.2, MemberText(m), MembersText(rest));
    }
  }

  lemma MoreMembers(m: Member, rest: seq<Member>, first: bool)
    ensures MembersText([m] + rest) == MemberText(m) + MembersText(rest)
    ensures Ranges([m] + rest) == [MemberRange(m)] + Ranges(rest)
    ensures LegalMembers(rest, false) && Begins(m, rest, first) ==> LegalMembers([m] + rest, first)
  {
    var ms := [m] + rest;
    assert ms[1..] == rest && (rest != [] ==> ms[1] == rest[0]);
  }

  lemma SpelledOn(p: Text, i: nat, n: nat, e: nat, w: Text, rest: Text)
    requires i <= n <= e <= |p| && p[i..n] == w && p[n..e] == rest + [CLOSE]
    ensures p[i..e] == w + rest + [CLOSE]
  {
    assert p[i..e] == p[i..n] + p[n..e];
  }

  lemma HeadSpelled(p: Text, q: bool) returns (e: Element)
    requires p != [] && !Head(p, q).0.Never?
    ensures Legal(e, q) && ElementText(e) == p[..Head(p, q).1]
  {
    if p[0] == STAR {
      e := AnyText;
    } else if p[0] == QUESTION && q {
      e := AnyChar;
    } else if p[0] == QUESTION || p[0] == OPEN {
      var invert := p[1] == BANG;
      var start := if invert then 2 else 1;
      var ms := ItemsSpelled(p, start, start);
      e := Bracketed(p[0], invert, ms);
      var n := Items(p, start, start).2;
      assert p[..n] == p[..start] + p[start..n];
      assert p[..start] == if invert then [p[0], BANG] else [p[0]];
    } else if p[0] == ESCAPE {
      e := Escaped(p[1]);
      assert p[..2] == [ESCAPE, p[1]];
    } else {
      e := Plain(p[0]);
      assert p[..1] == [p[0]];
    }
  }

  /** Every pattern that can be read to its end was written so. */
  lemma {:induction false} TokensSpelled(p: Text, q: bool) returns (es: seq<Element>)
    requires Never !in Tokens(p, q)
    ensures AllLegal(es, q) && Write(es) == p
    decreases |p|
  {
    es := [];
    if p != [] {
      TokensMore(p, q);
      var n := Head(p, q).1;
      var e := HeadSpelled(p, q);
      var rest := TokensSpelled(p[n..], q);
      es := [e] + rest;
      MoreElements(p, n, e, rest, q);
    }
  }

  lemma TokensMore(p: Text, q: bool)
    requires p != [] && Never !in Tokens(p, q)
    ensures !Head(p, q).0.Never? && Never !in Tokens(p[Head(p, q).1..], q)
  {
    assert Tokens(p, q)[0] == Head(p, q).0;
  }

  lemma MoreElements(p: Text, n: nat, e: Element, rest: seq<Element>, q: bool)
    requires Legal(e, q) && AllLegal(rest, q) && n <= |p| && ElementText(e) == p[..n] && Write(rest) == p[n..]
    ensures AllLegal([e] + rest, q) && Write([e] + rest) == p
  {
    assert ([e] + rest)[1..] == rest && p == p[..n] + p[n..];
  }

  /** A pattern that ends inside an escape or a bracket matches nothing. */
  lemma NeverMatches(ts: seq<Token>, s: Text)
    requires Never in ts
    ensures !InLanguage(ts, s)
  {
  }

  /** The text is cut into one part for each element, which stands for it. */
  ghost predicate Spells(es: seq<Element>, s: Text, parts: seq<Text>) {
    |parts| == |es| && Concat(parts) == s && forall i :: 0 <= i < |es| ==> Stands(es[i], parts[i])
  }

  /** The text matches: the pattern is written as some elements, and the text can be cut into what they stand for. */
  ghost predicate Matches(s: Text, p: Text, q: bool) {
    exists es, parts :: AllLegal(es, q) && Write(es) == p && Spells(es, s, parts)
  }

  lemma SpellsCut(es: seq<Element>, s: Text, parts: seq<Text>)
    ensures Spells(es, s, parts) <==> Cut(Meaning(es), s, parts)
  {
    if |parts| == |es| {
      forall i | 0 <= i < |es| ensures Stands(es[i], parts[i]) <==> Covers(Meaning(es)[i], parts[i]) {
        MeaningAt(es, i);
        StandsCovers(es[i], parts[i]);
      }
    }
  }

  /** The language of what is read from a pattern is what the pattern matches. */
  lemma MatchesRead(s: Text, p: Text, q: bool)
    ensures InLanguage(Tokens(p, q), s) <==> Matches(s, p, q)
  {
    if InLanguage(Tokens(p, q), s) {
      if Never in Tokens(p, q) { NeverMatches(Tokens(p, q), s); }
      var es := TokensSpelled(p, q);
      TokensWritten(es, q);
      var parts :| Cut(Tokens(p, q), s, parts);
      SpellsCut(es, s, parts);
    }
    if es, parts :| AllLegal(es, q) && Write(es) == p && Spells(es, s, parts) {
      TokensWritten(es, q);
      SpellsCut(es, s, parts);
    }
  }

  /** A pattern of ordinary characters matches itself and nothing else. */
  lemma {:induction false} OrdinaryMatches(s: Text, p: Text, q: bool)
    requires forall i :: 0 <= i < |p| ==> Ordinary(p[i])
    ensures InLanguage(Tokens(p, q), s) <==> s == p
    decreases |p|
  {
    if p == [] {
      LanguageEmpty(s);
    } else {
      var ts := Tokens(p, q);
      assert ts == [Lit(p[0])] + Tokens(p[1..], q);
      LanguageOne(ts, s);
      assert p == [p[0]] + p[1..];
      if s != [] {
        assert s == [s[0]] + s[1..];
        OrdinaryMatches(s[1..], p[1..], q);
      }
    }
  }

  // ---------------------------------------------------------------- the matcher

  lemma InRangesCons(r: Range, rs: seq<Range>, c: int)
    ensures InRanges([r] + rs, c) <==> r.lo <= c <= r.hi || InRanges(rs, c)
  {
    var all := [r] + rs;
    if InRanges(rs, c) {
      var i :| 0 <= i < |rs| && rs[i].lo <= c <= rs[i].hi;
      assert all[i + 1] == rs[i];
    }
    if r.lo <= c <= r.hi { assert all[0] == r; }
    if InRanges(all, c) {
      var i :| 0 <= i < |all| && all[i].lo <= c <= all[i].hi;
      if i > 0 { assert all[i] == rs[i - 1]; }
    }
  }

  /** What reading the bracket on from j adds to what was found so far. */
  ghost predicate Reads(p: Text, i: nat, j: nat, start: nat, c: int, found: bool)
    requires i <= |p| && j <= |p|
  {
    var whole, rest := Items(p, i, start), Items(p, j, start);
    && whole.0 == rest.0 && (whole.0 ==> whole.2 == rest.2)
    && (InRanges(whole.1, c) <==> found || InRanges(rest.1, c))
  }

  lemma ReadsOn(p: Text, i: nat, j: nat, start: nat, c: int, found: bool)
    requires i <= |p| && j + 1 < |p| && !(p[j] == CLOSE && j > start) && Reads(p, i, j, start, c, found)
    ensures p[j + 1] == DASH && j + 2 < |p| ==> Reads(p, i, j + 3, start, c, found || p[j] <= c <= p[j + 2])
    ensures p[j + 1] != DASH ==> Reads(p, i, j + 1, start, c, found || c == p[j])
  {
    if p[j + 1] == DASH {
      if j + 2 < |p| { InRangesCons(Range(p[j], p[j + 2]), Items(p, j + 3, start).1, c); }
    } else {
      InRangesCons(Range(p[j], p[j]), Items(p, j + 1, start).1, c);
    }
  }

  /** The bracket part of the matcher: reads the bracket and tests one character against it. */
  method MatchBracket(p: Text, i: nat, c: int) returns (ok: bool, next: nat)
    requires i <= |p|
    ensures ok <==> Accepts(Bracket(p, i).0, c)
    ensures ok ==> next == Bracket(p, i).1
  {
    next := i;
    if next == |p| { return false, next; }
    var invert := p[next] == BANG;
    if invert { next := next + 1; }
    var start := next;
    var found, closed := invert, false;
    ghost var read := Items(p, start, start);
    while next < |p| && !closed
      invariant start <= next <= |p|
      invariant !closed ==> Reads(p, start, next, start, c, found != invert)
      invariant closed ==> read.0 && read.2 == next && (InRanges(read.1, c) <==> found != invert)
      decreases |p| - next, !closed
    {
      if p[next] == CLOSE && next > start {
        closed, next := true, next + 1;
      } else if next + 1 == |p| {
        break;
      } else {
        ReadsOn(p, start, next, start, c, found != invert);
        var matches;
        if p[next + 1] == DASH {
          if next + 2 == |p| { break; }
          matches, next := p[next] <= c <= p[next + 2], next + 3;
        } else {
          matches, next := p[next] == c, next + 1;
        }
        if found == invert && matches { found := !invert; }
      }
    }
    ok := closed && found;
  }

  lemma HeadTokens(p: Text, q: bool)
    requires p != []
    ensures Tokens(p, q) != [] && Tokens(p, q)[0] == Head(p, q).0
    ensures !Head(p, q).0.Never? ==> Tokens(p, q)[1..] == Tokens(p[Head(p, q).1..], q)
  {
  }

  /** Skips a run of stars. */
  method SkipStars(p: Text, i: nat, q: bool) returns (j: nat)
    requires i <= |p|
    ensures i <= j <= |p| && (j < |p| ==> p[j] != STAR)
    ensures forall k :: i <= k < j ==> p[k] == STAR
  {
    j := i;
    while j < |p| && p[j] == STAR
      invariant i <= j <= |p| && forall k :: i <= k < j ==> p[k] == STAR
    {
      j := j + 1;
    }
  }

  /** Stars in front do not matter to a pattern that begins with one. */
  lemma {:induction false} StarsSkipped(p: Text, i: nat, j: nat, q: bool, s: Text)
    requires i < j <= |p| && forall k :: i <= k < j ==> p[k] == STAR
    ensures InLanguage(Tokens(p[i..], q), s) <==> InLanguage([Star] + Tokens(p[j..], q), s)
    decreases j - i
  {
    HeadTokens(p[i..], q);
    assert p[i..][1..] == p[i + 1..];
    var ts := Tokens(p[i..], q);
    if i + 1 == j {
      assert ts == [Star] + Tokens(p[j..], q);
    } else {
      HeadTokens(p[i + 1..], q);
      LanguageStars(ts, s);
      StarsSkipped(p, i + 1, j, q, s);
    }
  }

  /** At the end of the text only stars may be left of the pattern. */
  lemma {:induction false} OnlyStarsLeft(p: Text, i: nat, j: nat, q: bool)
    requires i <= j <= |p| && (j < |p| ==> p[j] != STAR) && forall k :: i <= k < j ==> p[k] == STAR
    ensures InLanguage(Tokens(p[i..], q), []) <==> j == |p|
    decreases j - i
  {
    if i == |p| {
      LanguageEmpty([]);
    } else {
      HeadTokens(p[i..], q);
      var ts := Tokens(p[i..], q);
      if i == j {
        LanguageOne(ts, []);
      } else {
        assert p[i..][1..] == p[i + 1..];
        OnlyStarsLeft(p, i + 1, j, q);
        LanguageStar(ts, []);
        var none: Text := []; assert none[0..] == none;
      }
    }
  }

  /** What is left of the text from k on is in the language of what is left of the pattern from i on. */
  ghost predicate Left(p: Text, i: nat, q: bool, s: Text, k: nat) {
    i <= |p| && k <= |s| && InLanguage(Tokens(p[i..], q), s[k..])
  }

  lemma AllLeft(p: Text, q: bool, s: Text)
    ensures Left(p, 0, q, s, 0) <==> InLanguage(Tokens(p, q), s)
  {
    assert s[0..] == s && p[0..] == p;
  }

  /** One side is used up: only stars may be left of the pattern. */
  lemma NoneLeft(p: Text, i: nat, j: nat, q: bool, s: Text, k: nat)
    requires i <= j <= |p| && (j < |p| ==> p[j] != STAR) && forall n :: i <= n < j ==> p[n] == STAR
    requires k <= |s| && (k == |s| || i == |p|)
    ensures Left(p, i, q, s, k) <==> j == |p| && k == |s|
  {
    if k == |s| {
      assert s[k..] == [];
      OnlyStarsLeft(p, i, j, q);
    } else {
      assert p[i..] == [];
      LanguageEmpty(s[k..]);
    }
  }

  /** One token that is no star: it takes one character. */
  lemma OneTaken(p: Text, i: nat, q: bool, s: Text, k: nat)
    requires i < |p| && p[i] != STAR && k <= |s|
    ensures var h := Head(p[i..], q);
      Left(p, i, q, s, k) <==> k < |s| && Accepts(h.0, s[k]) && Left(p, i + h.1, q, s, k + 1)
  {
    var h := Head(p[i..], q);
    HeadTokens(p[i..], q);
    LanguageOne(Tokens(p[i..], q), s[k..]);
    if k < |s| { assert s[k..][1..] == s[k + 1..]; }
    if !h.0.Never? { assert p[i..][h.1..] == p[i + h.1..]; }
  }

  /** Where a bracket is does not matter. */
  lemma {:induction false} ItemsShift(p: Text, d: nat, i: nat, start: nat)
    requires d <= |p| && i <= |p| - d
    ensures var a, b := Items(p[d..], i, start), Items(p, d + i, d + start);
      a.0 == b.0 && a.1 == b.1 && (a.0 ==> a.2 + d == b.2)
    decreases |p| - i
  {
    var s := p[d..];
    if i == |s| || (s[i] == CLOSE && i > start) || i + 1 == |s| {
    } else if s[i + 1] == DASH {
      if i + 2 < |s| { ItemsShift(p, d, i + 3, start); }
    } else {
      ItemsShift(p, d, i + 1, start);
    }
  }

  lemma BracketShift(p: Text, d: nat, i: nat)
    requires d <= |p| && i <= |p| - d
    ensures var a, b := Bracket(p[d..], i), Bracket(p, d + i); a.0 == b.0 && (!a.0.Never? ==> a.1 + d == b.1)
  {
    if d + i < |p| {
      var start := if p[d + i] == BANG then i + 1 else i;
      ItemsShift(p, d, start, start);
    }
  }

  /** One pattern element that is no star against one character. */
  method MatchOne(p: Text, i: nat, q: bool, c: int) returns (ok: bool, next: nat)
    requires i < |p| && p[i] != STAR
    ensures ok <==> Accepts(Head(p[i..], q).0, c)
    ensures ok ==> next == i + Head(p[i..], q).1
  {
    next := i + 1;
    if p[i] == QUESTION && q {
      ok := true;
    } else if p[i] == QUESTION || p[i] == OPEN {
      BracketShift(p, i, 1);
      ok, next := MatchBracket(p, i + 1, c);
    } else if p[i] == ESCAPE {
      ok, next := i + 1 < |p| && c == p[i + 1], i + 2;
    } else {
      ok := c == p[i];
    }
  }

  /** The matcher decides the language of its pattern, for every text and pattern. */
  method Glob(s: Text, p: Text, q: bool) returns (r: bool)
    ensures r <==> Matches(s, p, q)
  {
    r := GlobFrom(s, p, q);
    MatchesRead(s, p, q);
  }

  /** Its main loop. */
  method GlobFrom(s: Text, p: Text, q: bool) returns (r: bool)
    ensures r <==> InLanguage(Tokens(p, q), s)
    decreases |p|, 1
  {
    var i, k := 0, 0;
    AllLeft(p, q, s);
    while k < |s| && i < |p|
      invariant 0 <= i <= |p| && 0 <= k <= |s|
      invariant InLanguage(Tokens(p, q), s) <==> Left(p, i, q, s, k)
    {
      if p[i] == STAR {
        r := GlobStar(s[k..], p[i..], q);
        return;
      }
      OneTaken(p, i, q, s, k);
      var ok;
      ok, i := MatchOne(p, i, q, s[k]);
      if !ok { return false; }
      k := k + 1;
    }
    var j := SkipStars(p, i, q);
    NoneLeft(p, i, j, q, s, k);
    r := j == |p| && k == |s|;
  }

  /** A star: tries the rest of the pattern on every suffix but the empty one, which it cannot match. */
  method GlobStar(s: Text, p: Text, q: bool) returns (r: bool)
    requires s != [] && p != [] && p[0] == STAR
    ensures r <==> InLanguage(Tokens(p, q), s)
    decreases |p|, 0
  {
    var i := SkipStars(p, 1, q);
    assert p[0..] == p;
    StarsSkipped(p, 0, i, q, s);
    ghost var ts := [Star] + Tokens(p[i..], q);
    if i == |p| {
      LanguageStarAlone(ts, s);
      return true;
    }
    LanguageStar(ts, s);
    assert ts[1..] == Tokens(p[i..], q);
    var k := 0;
    while k < |s|
      invariant 0 <= k <= |s|
      invariant forall n :: 0 <= n < k ==> !InLanguage(ts[1..], s[n..])
    {
      var here := GlobFrom(s[k..], p[i..], q);
      if here { return true; }
      k := k + 1;
    }
    OnlyStarsLeft(p, i, i, q);
    assert s[|s|..] == [];
    r := false;
  }
}
