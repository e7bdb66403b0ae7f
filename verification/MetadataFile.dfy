/** metadata_t: the catalogue of databases and collections, and the text file it lives in. */
module MetadataFile {
  type Name = string

  type Catalogue = map<Name, seq<Name>>

  // ---------------------------------------------------------------- the catalogue

  function AddDatabase(m: Catalogue, db: Name): Catalogue {
    if db in m then m else m[db := []]
  }

  function AddCollection(m: Catalogue, db: Name, col: Name): Catalogue {
    if db in m && col !in m[db] then m[db := m[db] + [col]] else m
  }

  /** Every other database is as it was. */
  ghost predicate OthersKept(m: Catalogue, m': Catalogue, db: Name) {
    forall x :: x != db ==> (x in m' <==> x in m) && (x in m ==> m'[x] == m[x])
  }

  /** What appending a database makes of a catalogue: it is there, with the collections it had, if it was there, and
      without any if it was not. */
  ghost predicate DatabaseAdded(m: Catalogue, m': Catalogue, db: Name) {
    OthersKept(m, m', db) && db in m' && m'[db] == if db in m then m[db] else []
  }

  /** What appending a collection does: it is last in the list of its database, unless it is refused, because there is
      no such database or the collection is in it. */
  ghost predicate CollectionAdded(m: Catalogue, m': Catalogue, db: Name, col: Name, ok: bool) {
    && (ok <==> db in m && col !in m[db])
    && (ok ==> OthersKept(m, m', db) && db in m' && m'[db] == m[db] + [col])
    && (!ok ==> m' == m)
  }

  ghost predicate OneGone(cols: seq<Name>, cols': seq<Name>, col: Name) {
    exists a, b :: cols == a + [col] + b && cols' == a + b && col !in cols'
  }

  /** And what removing one does: the one occurrence goes, those around it stay in order. */
  ghost predicate CollectionRemoved(m: Catalogue, m': Catalogue, db: Name, col: Name, ok: bool) {
    && (ok <==> db in m && col in m[db])
    && (ok ==> OthersKept(m, m', db) && db in m' && OneGone(m[db], m'[db], col))
    && (!ok ==> m' == m)
  }

  lemma AddsMean(m: Catalogue, db: Name, col: Name)
    ensures DatabaseAdded(m, AddDatabase(m, db), db)
    ensures CollectionAdded(m, AddCollection(m, db, col), db, col, db in m && col !in m[db])
  {
  }

  /** std::remove: every element but the given one, in order. */
  function Without(cols: seq<Name>, col: Name): (r: seq<Name>)
    ensures col !in r && (forall c :: c in r <==> c in cols && c != col)
    ensures col !in cols ==> r == cols
  {
    if cols == [] then [] else if cols[0] == col then Without(cols[1..], col) else [cols[0]] + Without(cols[1..], col)
  }

  /** No collection is listed twice. */
  predicate Distinct(cols: seq<Name>) {
    forall i, j :: 0 <= i < j < |cols| ==> cols[i] != cols[j]
  }

  predicate AllDistinct(m: Catalogue) {
    forall db :: db in m ==> Distinct(m[db])
  }

  lemma {:induction false} WithoutDistinct(cols: seq<Name>, col: Name)
    requires Distinct(cols)
    ensures Distinct(Without(cols, col)) && |Without(cols, col)| == if col in cols then |cols| - 1 else |cols|
  {
    if cols != [] {
      var rest := cols[1..];
      assert forall i :: 0 <= i < |rest| ==> rest[i] == cols[i + 1];
      WithoutDistinct(rest, col);
      assert cols[0] !in rest;
    }
  }

  /** Without the only occurrence of a collection, its list is what was in front of it and what was behind. */
  lemma {:induction false} WithoutParts(cols: seq<Name>, col: Name)
    requires Distinct(cols) && col in cols
    ensures OneGone(cols, Without(cols, col), col)
  {
    var rest := cols[1..];
    assert forall i :: 0 <= i < |rest| ==> rest[i] == cols[i + 1];
    if cols[0] == col {
      assert col !in rest;
      assert cols == [] + [col] + rest && Without(cols, col) == [] + rest;
    } else {
      WithoutParts(rest, col);
      var a, b :| rest == a + [col] + b && Without(rest, col) == a + b;
      ConsParts(cols[0], a, col, b);
      assert cols == [cols[0]] + rest;
    }
  }

  lemma ConsParts(x: Name, a: seq<Name>, col: Name, b: seq<Name>)
    requires x != col && col !in a + b
    ensures OneGone([x] + (a + [col] + b), [x] + (a + b), col)
  {
    var c := [x] + a;
    assert [x] + (a + [col] + b) == c + [col] + b && [x] + (a + b) == c + b;
  }

  // ---------------------------------------------------------------- printing

  function PrintCollections(cols: seq<Name>): string {
    if cols == [] then "" else cols[0] + ";" + PrintCollections(cols[1..])
  }

  function PrintLine(db: Name, cols: seq<Name>): (r: string)
    ensures |r| == |db| + |PrintCollections(cols)| + 2
  {
    db + ":" + PrintCollections(cols) + "\n"
  }

  /** The lines of the databases in the order they are visited. */
  function Print(m: Catalogue, order: seq<Name>): string
    requires forall i :: 0 <= i < |order| ==> order[i] in m
  {
    if order == [] then "" else PrintLine(order[0], m[order[0]]) + Print(m, order[1..])
  }

  /** The hash map visits each database once, in an order of its own. */
  ghost predicate Visits(m: Catalogue, order: seq<Name>) {
    Distinct(order) && forall db :: db in order <==> db in m
  }

  // ---------------------------------------------------------------- parsing

  /** std::string::find of a character from a position; the length where it is absent. */
  function Find(t: string, c: char, i: nat): (r: nat)
    requires i <= |t|
    ensures i <= r <= |t|
    decreases |t| - i
  {
    if i == |t| || t[i] == c then i else Find(t, c, i + 1)
  }

  lemma {:induction false} FindMeans(t: string, c: char, i: nat)
    requires i <= |t|
    ensures Find(t, c, i) < |t| ==> t[Find(t, c, i)] == c
    ensures c !in t[i..Find(t, c, i)]
    decreases |t| - i
  {
    if i < |t| && t[i] != c {
      FindMeans(t, c, i + 1);
      var r := Find(t, c, i + 1);
      assert t[i..r] == [t[i]] + t[i + 1..r];
    }
  }

  lemma {:induction false} FindUnique(t: string, c: char, i: nat, k: nat)
    requires i <= k < |t| && t[k] == c && c !in t[i..k]
    ensures Find(t, c, i) == k
    decreases k - i
  {
    if i < k {
      assert t[i] == t[i..k][0];
      assert t[i..k] == [t[i]] + t[i + 1..k];
      FindUnique(t, c, i + 1, k);
    }
  }

  lemma {:induction false} FindLater(t: string, c: char, i: nat, k: nat)
    requires i <= |t| && i <= k <= Find(t, c, i)
    ensures k <= |t| && Find(t, c, k) == Find(t, c, i)
    decreases k - i
  {
    if i < k { FindLater(t, c, i + 1, k); }
  }

  /** The collections of one line: everything up to a semicolon that comes before the line's end. */
  function ParseCollections(t: string, i: nat, end: nat, db: Name, m: Catalogue): Catalogue
    requires i <= |t|
    decreases |t| - i
  {
    var p := Find(t, ';', i);
    if p < |t| && p < end then ParseCollections(t, p + 1, end, db, AddCollection(m, db, t[i..p])) else m
  }

  function Parse(t: string, i: nat, m: Catalogue): Catalogue
    requires i <= |t|
    decreases |t| - i
  {
    var p := Find(t, ':', i);
    if p == |t| then m
    else
      var end := Find(t, '\n', p + 1);
      ParsedOn(t, end, ParseCollections(t, p + 1, end, t[i..p], AddDatabase(m, t[i..p])))
  }

  /** The parse goes on behind the end of a line, if the text does. */
  function ParsedOn(t: string, end: nat, m: Catalogue): Catalogue
    requires end <= |t|
    decreases |t| - end
  {
    if end < |t| then Parse(t, end + 1, m) else m
  }

  // ---------------------------------------------------------------- reading back what was printed

  predicate CleanDatabase(db: Name) { ':' !in db }

  predicate CleanCollection(col: Name) { ';' !in col && '\n' !in col }

  predicate CleanList(cols: seq<Name>) { forall i :: 0 <= i < |cols| ==> CleanCollection(cols[i]) }

  predicate Clean(m: Catalogue) {
    forall db :: db in m ==> CleanDatabase(db) && CleanList(m[db])
  }

  lemma {:induction false} NoNewline(cols: seq<Name>)
    requires CleanList(cols)
    ensures '\n' !in PrintCollections(cols)
  {
    if cols != [] {
      assert CleanList(cols[1..]);
      assert CleanCollection(cols[0]);
      NoNewline(cols[1..]);
    }
  }

  /** The text has w at position i. */
  predicate At(t: string, i: nat, w: string) {
    i + |w| <= |t| && t[i..i + |w|] == w
  }

  lemma AtParts(t: string, i: nat, a: string, b: string)
    requires At(t, i, a + b)
    ensures At(t, i, a) && At(t, i + |a|, b)
  {
    var w := t[i..i + |a + b|];
    assert t[i..i + |a|] == w[..|a|] && t[i + |a|..i + |a| + |b|] == w[|a|..];
    assert (a + b)[..|a|] == a && (a + b)[|a|..] == b;
  }

  /** A name and its delimiter, where the name does not hold the delimiter. */
  lemma FindName(t: string, i: nat, w: string, c: char)
    requires At(t, i, w + [c]) && c !in w
    ensures Find(t, c, i) == i + |w| && i + |w| < |t| && t[i..i + |w|] == w
  {
    AtParts(t, i, w, [c]);
    assert t[i + |w|] == t[i + |w|..i + |w| + 1][0];
    FindUnique(t, c, i, i + |w|);
  }

  /** c does not occur before k. */
  lemma {:induction false} FindBeyond(t: string, c: char, i: nat, k: nat)
    requires i <= k <= |t| && c !in t[i..k]
    ensures Find(t, c, i) >= k
    decreases k - i
  {
    if i < k {
      assert t[i] == t[i..k][0];
      assert t[i..k] == [t[i]] + t[i + 1..k];
      FindBeyond(t, c, i + 1, k);
    }
  }

  /** The names of both lists, in the order of their first appearance. */
  function Union(done: seq<Name>, cols: seq<Name>): seq<Name>
    decreases |cols|
  {
    if cols == [] then done else Union(if cols[0] in done then done else done + [cols[0]], cols[1..])
  }

  lemma {:induction false} UnionMeans(done: seq<Name>, cols: seq<Name>)
    requires Distinct(done)
    ensures Distinct(Union(done, cols)) && done <= Union(done, cols)
    ensures forall c :: c in Union(done, cols) <==> c in done || c in cols
    decreases |cols|
  {
    if cols != [] { UnionMeans(if cols[0] in done then done else done + [cols[0]], cols[1..]); }
  }

  /** Reading on only adds behind what was read: the order is that of the text. */
  lemma {:induction false} UnionOn(done: seq<Name>, a: seq<Name>, b: seq<Name>)
    requires Distinct(done)
    ensures Union(done, a + b) == Union(Union(done, a), b) && Union(done, a) <= Union(done, a + b)
    decreases |a|
  {
    if a == [] {
      assert a + b == b;
      UnionMeans(done, b);
    } else {
      assert (a + b)[1..] == a[1..] + b;
      UnionOn(if a[0] in done then done else done + [a[0]], a[1..], b);
    }
  }

  lemma {:induction false} UnionApart(done: seq<Name>, cols: seq<Name>)
    requires Distinct(done + cols)
    ensures Union(done, cols) == done + cols
    decreases |cols|
  {
    if cols == [] {
      assert done + cols == done;
    } else {
      NotYet(done, cols);
      assert done + [cols[0]] + cols[1..] == done + cols;
      UnionApart(done + [cols[0]], cols[1..]);
    }
  }

  lemma NotYet(done: seq<Name>, cols: seq<Name>)
    requires Distinct(done + cols) && cols != []
    ensures cols[0] !in done
  {
    var all := done + cols;
    assert all[|done|] == cols[0];
    assert forall i :: 0 <= i < |done| ==> all[i] == done[i];
  }

  /** A line of the file up to its newline: a database, its collections, and what cannot be read. */
  datatype Line = Line(db: Name, cols: seq<Name>, junk: string)

  function LineText(l: Line): string { l.db + ":" + (PrintCollections(l.cols) + l.junk) }

  predicate LegalLine(l: Line) { CleanDatabase(l.db) && CleanList(l.cols) && CleanCollection(l.junk) }

  predicate LegalLines(ls: seq<Line>) { forall i :: 0 <= i < |ls| ==> LegalLine(ls[i]) }

  function LinesText(ls: seq<Line>): string {
    if ls == [] then "" else LineText(ls[0]) + "\n" + LinesText(ls[1..])
  }

  function Extended(m: Catalogue, db: Name, cols: seq<Name>): Catalogue
    requires db in m
  {
    m[db := Union(m[db], cols)]
  }

  /** What a line adds: its database, if it is not there, and those of its collections that are not. */
  function LineAdded(m: Catalogue, l: Line): Catalogue {
    m[l.db := Union(if l.db in m then m[l.db] else [], l.cols)]
  }

  function LinesAdded(m: Catalogue, ls: seq<Line>): Catalogue
    decreases |ls|
  {
    if ls == [] then m else LinesAdded(LineAdded(m, ls[0]), ls[1..])
  }

  /** The collections of a line, whether or not they are there already. */
  lemma {:induction false} CollectionsRead(t: string, i: nat, n: nat, end: nat, cols: seq<Name>, db: Name, m: Catalogue)
    requires At(t, i, PrintCollections(cols)) && CleanList(cols) && db in m
    requires n == i + |PrintCollections(cols)| <= end && Find(t, ';', n) >= end
    ensures ParseCollections(t, i, end, db, m) == Extended(m, db, cols)
    decreases |cols|
  {
    if cols == [] {
      assert Extended(m, db, cols) == m;
    } else {
      var col, rest := cols[0], cols[1..];
      AtParts(t, i, col + ";", PrintCollections(rest));
      assert CleanCollection(col) && CleanList(rest);
      CollectionRead(t, i, end, col, db, m);
      CollectionsRead(t, i + |col| + 1, n, end, rest, db, AddCollection(m, db, col));
      UnionStep(m, db, cols);
    }
  }

  lemma CollectionRead(t: string, i: nat, end: nat, col: Name, db: Name, m: Catalogue)
    requires At(t, i, col + ";") && ';' !in col && i + |col| < end
    ensures i + |col| < |t|
    ensures ParseCollections(t, i, end, db, m) == ParseCollections(t, i + |col| + 1, end, db, AddCollection(m, db, col))
  {
    FindName(t, i, col, ';');
  }

  lemma UnionStep(m: Catalogue, db: Name, cols: seq<Name>)
    requires db in m && cols != []
    ensures var m' := AddCollection(m, db, cols[0]);
      db in m' && Extended(m', db, cols[1..]) == Extended(m, db, cols)
  {
  }

  /** Where the parts of a line are that ends at a newline or with the text. */
  lemma LineParts(t: string, i: nat, p: nat, n: nat, end: nat, l: Line)
    requires At(t, i, LineText(l)) && LegalLine(l) && end == i + |LineText(l)| && (end == |t| || t[end] == '\n')
    requires p == i + |l.db| && n == p + 1 + |PrintCollections(l.cols)|
    ensures p < |t| && Find(t, ':', i) == p && t[i..p] == l.db && At(t, p + 1, PrintCollections(l.cols))
    ensures n <= end && Find(t, '\n', p + 1) == end && Find(t, ';', n) >= end
  {
    var body := PrintCollections(l.cols);
    NoNewline(l.cols);
    ColonAt(t, i, l.db, body + l.junk);
    BodyParts(t, p + 1, n, end, body, l.junk);
  }

  lemma ColonAt(t: string, i: nat, db: Name, w: string)
    requires At(t, i, db + ":" + w) && ':' !in db
    ensures i + |db| < |t| && Find(t, ':', i) == i + |db| && t[i..i + |db|] == db && At(t, i + |db| + 1, w)
  {
    AtParts(t, i, db + ":", w);
    FindName(t, i, db, ':');
  }

  lemma BodyParts(t: string, i: nat, n: nat, end: nat, body: string, junk: string)
    requires At(t, i, body + junk) && '\n' !in body && CleanCollection(junk)
    requires n == i + |body| && end == n + |junk| && (end == |t| || t[end] == '\n')
    ensures Find(t, '\n', i) == end && At(t, i, body) && n <= |t| && Find(t, ';', n) >= end
  {
    AtParts(t, i, body, junk);
    NoneIn(t, ';', n, junk);
    NewlineAt(t, i, body + junk);
  }

  lemma NoneIn(t: string, c: char, i: nat, w: string)
    requires At(t, i, w) && c !in w
    ensures Find(t, c, i) >= i + |w|
  {
    FindBeyond(t, c, i, i + |w|);
  }

  lemma NewlineAt(t: string, i: nat, w: string)
    requires At(t, i, w) && '\n' !in w && (i + |w| == |t| || t[i + |w|] == '\n')
    ensures Find(t, '\n', i) == i + |w|
  {
    if i + |w| == |t| { NoneIn(t, '\n', i, w); } else { FindUnique(t, '\n', i, i + |w|); }
  }

  lemma LineRead(t: string, i: nat, end: nat, l: Line, m: Catalogue)
    requires At(t, i, LineText(l)) && LegalLine(l) && end == i + |LineText(l)| && (end == |t| || t[end] == '\n')
    ensures Parse(t, i, m) == ParsedOn(t, end, LineAdded(m, l))
  {
    var p, n := i + |l.db|, i + |l.db| + 1 + |PrintCollections(l.cols)|;
    LineParts(t, i, p, n, end, l);
    LineCollected(t, p + 1, n, end, l, m);
    LineStep(t, i, p, end, l.db, m, LineAdded(m, l));
  }

  lemma LineStep(t: string, i: nat, p: nat, end: nat, db: Name, m: Catalogue, m': Catalogue)
    requires i <= p < |t| && p == Find(t, ':', i) && end == Find(t, '\n', p + 1) && db == t[i..p]
    requires m' == ParseCollections(t, p + 1, end, db, AddDatabase(m, db))
    ensures Parse(t, i, m) == ParsedOn(t, end, m')
  {
  }

  lemma LineCollected(t: string, i: nat, n: nat, end: nat, l: Line, m: Catalogue)
    requires At(t, i, PrintCollections(l.cols)) && CleanList(l.cols)
    requires n == i + |PrintCollections(l.cols)| <= end && Find(t, ';', n) >= end
    ensures ParseCollections(t, i, end, l.db, AddDatabase(m, l.db)) == LineAdded(m, l)
  {
    var m' := AddDatabase(m, l.db);
    CollectionsRead(t, i, n, end, l.cols, l.db, m');
    assert Extended(m', l.db, l.cols) == LineAdded(m, l);
  }

  /** A text is a list of lines, then one without a newline or something without a colon. */
  datatype Ending = Unfinished(l: Line) | Rest(r: string)

  function EndText(e: Ending): string { if e.Unfinished? then LineText(e.l) else e.r }

  predicate LegalEnding(e: Ending) { if e.Unfinished? then LegalLine(e.l) else ':' !in e.r }

  function WholeText(ls: seq<Line>, e: Ending): string { LinesText(ls) + EndText(e) }

  function AllAdded(m: Catalogue, ls: seq<Line>, e: Ending): Catalogue {
    if e.Unfinished? then LineAdded(LinesAdded(m, ls), e.l) else LinesAdded(m, ls)
  }

  lemma EndRead(t: string, i: nat, e: Ending, m: Catalogue)
    requires LegalEnding(e) && At(t, i, EndText(e)) && i + |EndText(e)| == |t|
    ensures Parse(t, i, m) == AllAdded(m, [], e)
  {
    if e.Unfinished? { LineRead(t, i, |t|, e.l, m); } else { FindBeyond(t, ':', i, |t|); }
  }

  lemma WholeCons(ls: seq<Line>, e: Ending)
    requires ls != []
    ensures WholeText(ls, e) == LineText(ls[0]) + ("\n" + WholeText(ls[1..], e))
  {
    var a, b, c := LineText(ls[0]), LinesText(ls[1..]), EndText(e);
    assert a + "\n" + b + c == a + ("\n" + (b + c));
  }

  lemma TailLine(t: string, i: nat, a: string, b: string)
    requires i <= |t| && t[i..] == a + ("\n" + b)
    ensures At(t, i, a) && i + |a| < |t| && t[i + |a|] == '\n' && t[i + |a| + 1..] == b
  {
    var w := t[i..];
    assert |w| == |a| + 1 + |b|;
    assert t[i..i + |a|] == w[..|a|] == a && t[i + |a|] == w[|a|] && t[i + |a| + 1..] == w[|a| + 1..];
    assert (a + ("\n" + b))[|a| + 1..] == b;
  }

  /** What is left of the text. */
  ghost predicate LeftOver(t: string, i: nat, ls: seq<Line>, e: Ending) { i <= |t| && t[i..] == WholeText(ls, e) }

  /** The first line of several. */
  lemma FirstOf(t: string, i: nat, ls: seq<Line>, e: Ending) returns (end: nat)
    requires ls != [] && LeftOver(t, i, ls, e)
    ensures At(t, i, LineText(ls[0])) && end == i + |LineText(ls[0])| < |t| && t[end] == '\n'
    ensures LeftOver(t, end + 1, ls[1..], e)
  {
    WholeCons(ls, e);
    TailLine(t, i, LineText(ls[0]), WholeText(ls[1..], e));
    end := i + |LineText(ls[0])|;
  }

  ghost predicate Gives(t: string, i: nat, m: Catalogue, r: Catalogue) { i <= |t| && Parse(t, i, m) == r }

  lemma NextLineRead(t: string, i: nat, end: nat, l: Line, m: Catalogue, r: Catalogue)
    requires At(t, i, LineText(l)) && LegalLine(l) && end == i + |LineText(l)| < |t| && t[end] == '\n'
    requires Gives(t, end + 1, LineAdded(m, l), r)
    ensures Gives(t, i, m, r)
  {
    LineRead(t, i, end, l, m);
  }

  lemma {:induction false} LinesRead(t: string, i: nat, ls: seq<Line>, e: Ending, m: Catalogue, r: Catalogue)
    requires LegalLines(ls) && LegalEnding(e) && LeftOver(t, i, ls, e) && r == AllAdded(m, ls, e)
    ensures Gives(t, i, m, r)
    decreases |ls|
  {
    if ls == [] {
      LastRead(t, i, e, m);
    } else {
      var end := FirstOf(t, i, ls, e);
      AddedOn(m, ls, e);
      LinesRead(t, end + 1, ls[1..], e, LineAdded(m, ls[0]), r);
      NextLineRead(t, i, end, ls[0], m, r);
    }
  }

  lemma AddedOn(m: Catalogue, ls: seq<Line>, e: Ending)
    requires ls != []
    ensures AllAdded(m, ls, e) == AllAdded(LineAdded(m, ls[0]), ls[1..], e)
  {
  }

  lemma LastRead(t: string, i: nat, e: Ending, m: Catalogue)
    requires LegalEnding(e) && LeftOver(t, i, [], e)
    ensures Parse(t, i, m) == AllAdded(m, [], e)
  {
    assert t[i..] == EndText(e) && t[i..|t|] == t[i..];
    EndRead(t, i, e, m);
  }

  /** What the parser makes of any text: line by line the databases and the collections that are not there yet, what is
      behind the last semicolon of a line or has no colon being skipped. */
  lemma ParsesText(ls: seq<Line>, e: Ending)
    requires LegalLines(ls) && LegalEnding(e)
    ensures Parse(WholeText(ls, e), 0, map[]) == AllAdded(map[], ls, e)
  {
    var t := WholeText(ls, e);
    assert t[0..] == t;
    LinesRead(t, 0, ls, e, map[], AllAdded(map[], ls, e));
  }

  // ---------------------------------------------------------------- every text is made of lines

  /** A stretch without newlines: collections, and what is behind the last semicolon. */
  lemma {:induction false} Collected(w: string) returns (cols: seq<Name>, junk: string)
    requires '\n' !in w
    ensures w == PrintCollections(cols) + junk && CleanList(cols) && CleanCollection(junk)
    decreases |w|
  {
    var p := Find(w, ';', 0);
    FindMeans(w, ';', 0);
    cols, junk := [], w;
    if p < |w| {
      var name, rest := w[..p], w[p + 1..];
      CutAt(w, p);
      cols, junk := Collected(rest);
      MoreCollected(name, cols);
      cols := [name] + cols;
      assert name + ";" + rest == PrintCollections(cols) + junk;
    } else {
      assert w[0..p] == w;
    }
  }

  lemma CutAt(w: string, p: nat)
    requires p < |w|
    ensures w == w[..p] + [w[p]] + w[p + 1..] && w[..p] == w[0..p]
    ensures forall x :: x in w[..p] || x in w[p + 1..] ==> x in w
  {
  }

  lemma MoreCollected(name: Name, cols: seq<Name>)
    requires CleanCollection(name) && CleanList(cols)
    ensures CleanList([name] + cols) && PrintCollections([name] + cols) == name + ";" + PrintCollections(cols)
  {
    assert ([name] + cols)[1..] == cols;
  }

  /** The first line of a text with a colon. */
  lemma FirstLine(t: string) returns (l: Line, end: nat)
    requires Find(t, ':', 0) < |t|
    ensures LegalLine(l) && end <= |t| && t[..end] == LineText(l) && (end < |t| ==> t[end] == '\n')
  {
    var p := Find(t, ':', 0);
    FindMeans(t, ':', 0);
    end := Find(t, '\n', p + 1);
    FindMeans(t, '\n', p + 1);
    var cols, junk := Collected(t[p + 1..end]);
    l := Line(t[..p], cols, junk);
    assert t[0..p] == t[..p] && t[p] == ':';
    assert t[..end] == t[..p] + ":" + t[p + 1..end];
    assert LineText(l) == t[..p] + ":" + t[p + 1..end];
  }

  /** Every text is so made. */
  lemma {:induction false} EveryText(t: string) returns (ls: seq<Line>, e: Ending)
    ensures LegalLines(ls) && LegalEnding(e) && WholeText(ls, e) == t
    decreases |t|
  {
    FindMeans(t, ':', 0);
    assert t[0..|t|] == t;
    if Find(t, ':', 0) == |t| { return [], Rest(t); }
    var l, end := FirstLine(t);
    if end == |t| {
      assert t[..end] == t;
      return [], Unfinished(l);
    }
    var rest;
    rest, e := EveryText(t[end + 1..]);
    ls := [l] + rest;
    OneMoreLine(l, rest, e);
    assert t == t[..end] + "\n" + t[end + 1..];
  }

  lemma OneMoreLine(l: Line, rest: seq<Line>, e: Ending)
    ensures WholeText([l] + rest, e) == LineText(l) + "\n" + WholeText(rest, e)
  {
    assert ([l] + rest)[1..] == rest;
  }

  // ---------------------------------------------------------------- printed and read

  /** The lines of a catalogue in a given order. */
  ghost function LinesOf(m: Catalogue, order: seq<Name>): (r: seq<Line>)
    requires forall i :: 0 <= i < |order| ==> order[i] in m
    ensures |r| == |order| && forall i :: 0 <= i < |order| ==> r[i] == Line(order[i], m[order[i]], "")
  {
    if order == [] then [] else [Line(order[0], m[order[0]], "")] + LinesOf(m, order[1..])
  }

  lemma {:induction false} PrintsLines(m: Catalogue, order: seq<Name>)
    requires forall i :: 0 <= i < |order| ==> order[i] in m
    ensures Print(m, order) == LinesText(LinesOf(m, order))
  {
    if order != [] {
      PrintsLines(m, order[1..]);
      var l := LinesOf(m, order);
      assert l[1..] == LinesOf(m, order[1..]);
      assert LineText(l[0]) + "\n" == PrintLine(order[0], m[order[0]]);
    }
  }

  /** The part of the catalogue already there. */
  ghost predicate Joined(whole: Catalogue, m: Catalogue, order: seq<Name>) {
    && (forall db :: db in m ==> db in whole && m[db] == whole[db] && db !in order)
    && (forall db :: db in whole ==> db in m || db in order)
  }

  /** What is left after the first line. */
  lemma NextLine(whole: Catalogue, m: Catalogue, order: seq<Name>)
    requires Distinct(order) && order != [] && Joined(whole, m, order)
      && (forall i :: 0 <= i < |order| ==> order[i] in whole)
    ensures var db, rest := order[0], order[1..];
      && db in whole && db !in m && Distinct(rest) && (forall i :: 0 <= i < |rest| ==> rest[i] in whole)
      && Joined(whole, m[db := whole[db]], rest)
  {
    var db, rest := order[0], order[1..];
    assert forall i :: 0 <= i < |rest| ==> rest[i] == order[i + 1];
    assert db in order;
    assert forall x :: x in rest ==> x in order;
    assert forall x :: x in order ==> x == db || x in rest;
  }

  lemma {:induction false} LinesJoin(whole: Catalogue, m: Catalogue, order: seq<Name>)
    requires AllDistinct(whole) && Distinct(order) && Joined(whole, m, order)
    requires forall i :: 0 <= i < |order| ==> order[i] in whole
    ensures LinesAdded(m, LinesOf(whole, order)) == whole
    decreases |order|
  {
    if order == [] {
      assert m == whole;
    } else {
      NextLine(whole, m, order);
      var l, db := LinesOf(whole, order), order[0];
      assert l[1..] == LinesOf(whole, order[1..]) && [] + whole[db] == whole[db];
      UnionApart([], whole[db]);
      LinesJoin(whole, m[db := whole[db]], order[1..]);
    }
  }

  /** Reading back restores the catalogue, whatever order it was printed in. */
  lemma ReadsBack(m: Catalogue, order: seq<Name>)
    requires Clean(m) && AllDistinct(m) && Visits(m, order)
    ensures Parse(Print(m, order), 0, map[]) == m
  {
    var lines := LinesOf(m, order);
    PrintsLines(m, order);
    LinesJoin(m, map[], order);
    assert WholeText(lines, Rest("")) == Print(m, order);
    ParsesText(lines, Rest(""));
  }

  // ---------------------------------------------------------------- what a parser can return

  lemma SliceLacks(t: string, i: nat, p: nat, e: nat, c: char)
    requires i <= p <= e <= |t| && c !in t[i..e]
    ensures c !in t[i..p]
  {
    assert forall k :: 0 <= k < p - i ==> t[i..p][k] == t[i..e][k];
  }

  lemma CollectionClean(t: string, i: nat, end: nat)
    requires i <= |t| && Find(t, ';', i) < end <= Find(t, '\n', i)
    ensures CleanCollection(t[i..Find(t, ';', i)])
  {
    FindMeans(t, ';', i);
    FindMeans(t, '\n', i);
    var p, e := Find(t, ';', i), Find(t, '\n', i);
    SliceLacks(t, i, p, e, '\n');
  }

  lemma {:induction false} CollectionsClean(t: string, i: nat, end: nat, db: Name, m: Catalogue)
    requires i <= |t| && end <= Find(t, '\n', i) && Clean(m) && AllDistinct(m)
    ensures Clean(ParseCollections(t, i, end, db, m)) && AllDistinct(ParseCollections(t, i, end, db, m))
    decreases |t| - i
  {
    var p := Find(t, ';', i);
    if p < |t| && p < end {
      CollectionClean(t, i, end);
      AddClean(m, db, t[i..p]);
      FindLater(t, '\n', i, p + 1);
      CollectionsClean(t, p + 1, end, db, AddCollection(m, db, t[i..p]));
    }
  }

  lemma AddClean(m: Catalogue, db: Name, col: Name)
    requires Clean(m) && AllDistinct(m) && CleanCollection(col)
    ensures Clean(AddCollection(m, db, col)) && AllDistinct(AddCollection(m, db, col))
  {
  }

  lemma AddDatabaseClean(m: Catalogue, db: Name)
    requires Clean(m) && AllDistinct(m) && CleanDatabase(db)
    ensures Clean(AddDatabase(m, db)) && AllDistinct(AddDatabase(m, db))
  {
  }

  /** Any text parses to a catalogue of clean names without repetitions. */
  lemma {:induction false} ParseClean(t: string, i: nat, m: Catalogue)
    requires i <= |t| && Clean(m) && AllDistinct(m)
    ensures Clean(Parse(t, i, m)) && AllDistinct(Parse(t, i, m))
    decreases |t| - i
  {
    var p := Find(t, ':', i);
    if p < |t| {
      var db, end := t[i..p], Find(t, '\n', p + 1);
      FindMeans(t, ':', i);
      AddDatabaseClean(m, db);
      CollectionsClean(t, p + 1, end, db, AddDatabase(m, db));
      if end < |t| { ParseClean(t, end + 1, ParseCollections(t, p + 1, end, db, AddDatabase(m, db))); }
    }
  }

  /** The file restores the catalogue exactly when no database name holds a colon and no collection
      name a semicolon or a newline. */
  lemma ReadsBackIff(m: Catalogue, order: seq<Name>)
    requires AllDistinct(m) && Visits(m, order)
    ensures Parse(Print(m, order), 0, map[]) == m <==> Clean(m)
  {
    if Clean(m) { ReadsBack(m, order); }
    ParseClean(Print(m, order), 0, map[]);
  }

  // ---------------------------------------------------------------- the object

  method PrintDatabase(db: Name, cols: seq<Name>) returns (line: string)
    ensures line == PrintLine(db, cols)
  {
    line := db + ":";
    var i := 0;
    while i < |cols|
      invariant 0 <= i <= |cols| && line == db + ":" + PrintCollections(cols[..i])
    {
      PrintOneMore(cols, i);
      line := line + (cols[i] + ";");
      i := i + 1;
    }
    assert cols[..i] == cols;
    line := line + "\n";
  }

  /** Every database visited so far, and no other. */
  ghost predicate Visited(m: Catalogue, order: seq<Name>, left: set<Name>) {
    left <= m.Keys && Distinct(order) && (forall i :: 0 <= i < |order| ==> order[i] in m && order[i] !in left)
    && (forall db :: db in m && db !in left ==> db in order)
  }

  lemma VisitMore(m: Catalogue, order: seq<Name>, left: set<Name>, db: Name)
    requires Visited(m, order, left) && db in left
    ensures Visited(m, order + [db], left - {db})
  {
    var o := order + [db];
    forall x | x in m && x !in left - {db} ensures x in o {
      if x == db { assert o[|order|] == x; } else { assert x in order; }
    }
  }

  /** flush_: visits the databases in an arbitrary order. */
  method PrintAll(m: Catalogue) returns (text: string, ghost order: seq<Name>)
    ensures Visits(m, order) && text == Print(m, order)
  {
    text, order := "", [];
    var left := m.Keys;
    while left != {}
      invariant Visited(m, order, left) && text == Print(m, order)
      decreases |left|
    {
      var db :| db in left;
      var line := PrintDatabase(db, m[db]);
      PrintLast(m, order, db);
      VisitMore(m, order, left, db);
      text := text + line;
      order, left := order + [db], left - {db};
    }
  }

  lemma {:induction false} PrintOneMore(cols: seq<Name>, i: nat)
    requires i < |cols|
    ensures PrintCollections(cols[..i + 1]) == PrintCollections(cols[..i]) + (cols[i] + ";")
    decreases i
  {
    if i == 0 {
      assert cols[..1] == [cols[0]] && [cols[0]][1..] == [];
    } else {
      assert cols[..i + 1][1..] == cols[1..][..i] && cols[..i][1..] == cols[1..][..i - 1];
      PrintOneMore(cols[1..], i - 1);
    }
  }

  lemma {:induction false} PrintLast(m: Catalogue, order: seq<Name>, db: Name)
    requires db in m && forall i :: 0 <= i < |order| ==> order[i] in m
    ensures Print(m, order + [db]) == Print(m, order) + PrintLine(db, m[db])
    decreases |order|
  {
    if order == [] {
      assert [db][1..] == [];
    } else {
      assert (order + [db])[1..] == order[1..] + [db];
      PrintLast(m, order[1..], db);
    }
  }

  lemma ParseLineStep(t: string, i: nat, p: nat, end: nat, db: Name, m: Catalogue)
    requires i <= p < |t| && p == Find(t, ':', i) && end == Find(t, '\n', p + 1) && db == t[i..p]
    ensures var m' := ParseCollections(t, p + 1, end, db, AddDatabase(m, db));
      Parse(t, i, m) == if end < |t| then Parse(t, end + 1, m') else m'
  {
  }

  /** The parsing loops of the constructor. */
  method ParseAll(text: string) returns (m: Catalogue)
    ensures m == Parse(text, 0, map[])
  {
    m := map[];
    var start := 0;
    var colon := Find(text, ':', start);
    while colon < |text|
      invariant 0 <= start <= |text| && colon == Find(text, ':', start)
      invariant Parse(text, 0, map[]) == Parse(text, start, m)
      decreases |text| - start
    {
      var db, pos := text[start..colon], colon + 1;
      var end := Find(text, '\n', pos);
      ParseLineStep(text, start, colon, end, db, m);
      m := ParseLine(text, pos, end, db, AddDatabase(m, db));
      if end == |text| { return; }
      start := end + 1;
      colon := Find(text, ':', start);
    }
  }

  method ParseLine(text: string, from: nat, end: nat, db: Name, m0: Catalogue) returns (m: Catalogue)
    requires from <= |text|
    ensures m == ParseCollections(text, from, end, db, m0)
  {
    m := m0;
    var pos := from;
    var semi := Find(text, ';', pos);
    while semi < |text| && semi < end
      invariant from <= pos <= |text| && semi == Find(text, ';', pos)
      invariant ParseCollections(text, from, end, db, m0) == ParseCollections(text, pos, end, db, m)
      decreases |text| - pos
    {
      m := AddCollection(m, db, text[pos..semi]);
      pos := semi + 1;
      semi := Find(text, ';', pos);
    }
  }

  class Metadata {
    var data: Catalogue
    var file: string

    ghost predicate Valid()
      reads this
    {
      AllDistinct(data)
    }

    /** Reopening the file would give this very catalogue. */
    ghost predicate InSync()
      reads this
    {
      Parse(file, 0, map[]) == data
    }

    /** Opening a file reads it as far as it can be read. */
    constructor (text: string)
      ensures Valid() && InSync() && file == text
    {
      ParseClean(text, 0, map[]);
      var d := ParseAll(text);
      data := d;
      file := text;
    }

    method Flush()
      requires Valid()
      modifies this`file
      ensures InSync() <==> Clean(data)
    {
      ghost var order;
      file, order := PrintAll(data);
      ReadsBackIff(data, order);
    }

    method AppendDatabase(db: Name, flush: bool) returns (ok: bool)
      requires Valid()
      modifies this
      ensures Valid() && DatabaseAdded(old(data), data, db) && ok == (db !in old(data))
      ensures if flush && ok then InSync() <==> Clean(data) else file == old(file)
    {
      ok := db !in data;
      if ok {
        data := data[db := []];
        if flush { Flush(); }
      }
    }

    method RemoveDatabase(db: Name, flush: bool) returns (ok: bool)
      requires Valid()
      modifies this
      ensures Valid() && OthersKept(old(data), data, db) && db !in data && ok == (db in old(data))
      ensures if flush && ok then InSync() <==> Clean(data) else file == old(file)
    {
      ok := db in data;
      data := data - {db};
      if flush && ok { Flush(); }
    }

    method AppendCollection(db: Name, col: Name, flush: bool) returns (ok: bool)
      requires Valid()
      modifies this
      ensures Valid() && CollectionAdded(old(data), data, db, col, ok)
      ensures if flush && ok then InSync() <==> Clean(data) else file == old(file)
    {
      ok := db in data && col !in data[db];
      if ok {
        data := data[db := data[db] + [col]];
        if flush { Flush(); }
      }
    }

    /** The one occurrence of the collection goes, the others keep their order. */
    method RemoveCollection(db: Name, col: Name, flush: bool) returns (ok: bool)
      requires Valid()
      modifies this
      ensures Valid() && CollectionRemoved(old(data), data, db, col, ok)
      ensures if flush && ok then InSync() <==> Clean(data) else file == old(file)
    {
      ok := false;
      if db in data {
        WithoutDistinct(data[db], col);
        if col in data[db] { WithoutParts(data[db], col); }
        var kept := Without(data[db], col);
        if |kept| < |data[db]| {
          ok := true;
          data := data[db := kept];
          if flush { Flush(); }
        }
      }
    }
  }
}
