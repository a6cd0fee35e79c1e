/**
 * The high-score table of game/highscoretable.js: entries of a player's
 * name, score, wave, money and hit points; the text form of an entry
 * (`HighScoreEntry.prototype.toString`) and of a whole table; the loop of
 * the `HighScoreTable` constructor that turns that text back into entries;
 * `sort`, which orders the table by descending score; and `addScore`, which
 * keeps the table at no more than `HIGH_SCORE_TABLE_SIZE` entries.
 *
 * The numbers the file handles are JavaScript numbers: the integers the
 * game hands to `addScore`, or the NaN that `parseInt` returns for a field
 * without digits.  `encodeURIComponent` and `decodeURIComponent` are a pair
 * of functions handed in (`UriCodec`) of which only what the file relies on
 * is assumed: decoding undoes encoding, and an encoded name holds neither
 * `:` nor `;`.
 */
module HighScores {
  import opened Wrappers

  /** HighScoreTable.HIGH_SCORE_TABLE_SIZE. */
  const TableSize: nat := 10

  /** A JavaScript number as this file meets it: an integer, or NaN. */
  datatype Num = Int(n: int) | NaN

  /** HighScoreEntry. */
  datatype Entry = Entry(name: string, score: Num, wave: Num, money: Num, hitPoints: Num)

  /** encodeURIComponent and decodeURIComponent. */
  datatype UriCodec = UriCodec(encode: string -> string, decode: string -> string)

  /** What the file relies on of the two URI functions: decoding undoes
      encoding, and encoding escapes the field and record separators. */
  ghost predicate InversePair(c: UriCodec) {
    && (forall s :: c.decode(c.encode(s)) == s)
    && (forall s :: ':' !in c.encode(s) && ';' !in c.encode(s))
  }

  // ---------------------------------------------------------------------
  // String.prototype.split and Array.prototype.join on one character

  /** `s.split(sep)`: the pieces of `s` between separators, in order; the
      empty string gives one empty piece and a trailing separator an empty
      last piece. */
  function Split(s: string, sep: char): (r: seq<string>)
    ensures |r| >= 1
    ensures forall k :: 0 <= k < |r| ==> sep !in r[k]
    ensures |r| == 1 <==> sep !in s
    decreases |s|
  {
    if s == [] then [""]
    else if s[0] == sep then [""] + Split(s[1..], sep)
    else
      var rest := Split(s[1..], sep);
      [[s[0]] + rest[0]] + rest[1..]
  }

  /** `ps.join(sep)`. */
  function Join(ps: seq<string>, sep: char): string
    decreases |ps|
  {
    if |ps| == 0 then ""
    else if |ps| == 1 then ps[0]
    else ps[0] + [sep] + Join(ps[1..], sep)
  }

  /** Joining one more piece in front adds it and a separator. */
  lemma JoinCons(a: string, ps: seq<string>, sep: char)
    requires |ps| >= 1
    ensures Join([a] + ps, sep) == a + [sep] + Join(ps, sep)
  {
    assert ([a] + ps)[1..] == ps;
  }

  /** Joining pieces whose first one gained a leading character gives the
      joined pieces with that character in front. */
  lemma JoinPrepend(ch: char, ps: seq<string>, sep: char)
    requires |ps| >= 1
    ensures Join([[ch] + ps[0]] + ps[1..], sep) == [ch] + Join(ps, sep)
  {
    if |ps| > 1 {
      JoinCons([ch] + ps[0], ps[1..], sep);
      JoinCons(ps[0], ps[1..], sep);
      assert ps == [ps[0]] + ps[1..];
    }
  }

  /** Joining the pieces of a split gives back the string. */
  lemma {:induction false} JoinSplit(s: string, sep: char)
    ensures Join(Split(s, sep), sep) == s
    decreases |s|
  {
    if s == [] {
    } else if s[0] == sep {
      JoinSplit(s[1..], sep);
      JoinCons("", Split(s[1..], sep), sep);
      assert s == [sep] + s[1..];
    } else {
      JoinSplit(s[1..], sep);
      JoinPrepend(s[0], Split(s[1..], sep), sep);
      assert s == [s[0]] + s[1..];
    }
  }

  /** A string without the separator splits into itself alone. */
  lemma {:induction false} SplitNoSeparator(x: string, sep: char)
    requires sep !in x
    ensures Split(x, sep) == [x]
    decreases |x|
  {
    if x != [] {
      SplitNoSeparator(x[1..], sep);
      assert x == [x[0]] + x[1..];
    }
  }

  /** A piece without the separator, then the separator, splits off as the
      first piece. */
  lemma {:induction false} SplitAfterPiece(x: string, sep: char, y: string)
    requires sep !in x
    ensures Split(x + [sep] + y, sep) == [x] + Split(y, sep)
    decreases |x|
  {
    var s := x + [sep] + y;
    if x == [] {
      assert s[1..] == y;
    } else {
      assert x == [x[0]] + x[1..];
      assert s[1..] == x[1..] + [sep] + y;
      SplitAfterPiece(x[1..], sep, y);
      var rest := Split(s[1..], sep);
      assert rest[0] == x[1..] && rest[1..] == Split(y, sep);
    }
  }

  /** Splitting what was joined gives back the pieces, when none of them
      holds the separator. */
  lemma {:induction false} SplitJoin(ps: seq<string>, sep: char)
    requires |ps| >= 1
    requires forall k :: 0 <= k < |ps| ==> sep !in ps[k]
    ensures Split(Join(ps, sep), sep) == ps
    decreases |ps|
  {
    if |ps| == 1 {
      SplitNoSeparator(ps[0], sep);
    } else {
      SplitJoin(ps[1..], sep);
      SplitAfterPiece(ps[0], sep, Join(ps[1..], sep));
      assert ps == [ps[0]] + ps[1..];
    }
  }

  // ---------------------------------------------------------------------
  // Number.prototype.toString and parseInt

  predicate IsDigit(ch: char) {
    '0' as int <= ch as int <= '9' as int
  }

  function DigitChar(d: nat): (ch: char)
    requires d < 10
    ensures IsDigit(ch) && ch as int - '0' as int == d
  {
    (('0' as int) + d) as char
  }

  /** The decimal digits of `n`, most significant first, without leading
      zeros. */
  function Decimal(n: nat): (r: string)
    ensures |r| >= 1
    ensures forall k :: 0 <= k < |r| ==> IsDigit(r[k])
  {
    if n < 10 then [DigitChar(n)] else Decimal(n / 10) + [DigitChar(n % 10)]
  }

  /** The value of a string of decimal digits. */
  function DigitsValue(ds: string): nat
    requires forall k :: 0 <= k < |ds| ==> IsDigit(ds[k])
  {
    if ds == [] then 0
    else
      var d := ds[|ds| - 1];
      assert IsDigit(d);
      10 * DigitsValue(ds[..|ds| - 1]) + (d as int - '0' as int)
  }

  /** The number of decimal digits `s` starts with. */
  function DigitRun(s: string): (k: nat)
    ensures k <= |s|
    ensures forall i :: 0 <= i < k ==> IsDigit(s[i])
    ensures k < |s| ==> !IsDigit(s[k])
  {
    if s == [] || !IsDigit(s[0]) then 0 else 1 + DigitRun(s[1..])
  }

  /** String(x) for an integer or NaN. */
  function NumText(x: Num): (r: string)
    ensures ':' !in r && ';' !in r
  {
    match x
    case NaN => "NaN"
    case Int(n) => if n < 0 then "-" + Decimal(-n) else Decimal(n)
  }

  /** parseInt(s) with no radix: an optional sign, then the longest run of
      decimal digits; NaN when that run is empty. */
  function ParseInt(s: string): Num {
    var signed := |s| > 0 && (s[0] == '-' || s[0] == '+');
    var body := if signed then s[1..] else s;
    var k := DigitRun(body);
    if k == 0 then NaN
    else
      var v: int := DigitsValue(body[..k]);
      Int(if |s| > 0 && s[0] == '-' then -v else v)
  }

  lemma {:induction false} DecimalValue(n: nat)
    ensures DigitsValue(Decimal(n)) == n
  {
    if n >= 10 {
      DecimalValue(n / 10);
      var ds := Decimal(n);
      assert ds[..|ds| - 1] == Decimal(n / 10);
    }
  }

  lemma {:induction false} DigitRunAll(s: string)
    requires forall k :: 0 <= k < |s| ==> IsDigit(s[k])
    ensures DigitRun(s) == |s|
  {
    if s != [] {
      DigitRunAll(s[1..]);
    }
  }

  /** parseInt reads back every number that String writes. */
  lemma ParseNumText(x: Num)
    ensures ParseInt(NumText(x)) == x
  {
    match x
    case NaN =>
    case Int(n) =>
      var m: nat := if n < 0 then -n else n;
      var ds, s := Decimal(m), NumText(x);
      assert ds[..|ds|] == ds;
      DigitRunAll(ds);
      DecimalValue(m);
      if n < 0 {
        assert s[1..] == ds;
      }
  }

  // ---------------------------------------------------------------------
  // The text form of entries and tables

  /** The fields `toString` joins: name, score, hit points, wave, money. */
  function EntryFields(e: Entry, c: UriCodec): seq<string> {
    [c.encode(e.name), NumText(e.score), NumText(e.hitPoints), NumText(e.wave), NumText(e.money)]
  }

  /** HighScoreEntry.prototype.toString: the fields joined by `:`, then `;`. */
  function EntryText(e: Entry, c: UriCodec): string {
    Join(EntryFields(e, c), ':') + ";"
  }

  /** The string `saveScores` assembles from the entries in order. */
  function TableText(t: seq<Entry>, c: UriCodec): string {
    if t == [] then "" else EntryText(t[0], c) + TableText(t[1..], c)
  }

  /** The table text as the loader finds it again in the cookie:
      `saveScores` on an empty table encodes the undefined string
      variable, which is the text "undefined". */
  function SavedText(t: seq<Entry>, c: UriCodec): string {
    if |t| == 0 then "undefined" else TableText(t, c)
  }

  /** parseInt(fields[k]); a missing field is `undefined`, which parseInt
      reads as NaN. */
  function FieldNum(fields: seq<string>, k: nat): Num {
    if k < |fields| then ParseInt(fields[k]) else NaN
  }

  /** One pass of the loading loop: a row of at least two `:`-fields is an
      entry of decoded name, score (field 1), hit points (field 2), wave
      (field 3) and money (field 4); any other row is skipped. */
  function ParseRow(row: string, c: UriCodec): (r: Option<Entry>)
    ensures r.Some? <==> ':' in row
  {
    var fields := Split(row, ':');
    if |fields| > 1 then Some(RowEntry(fields, c)) else None
  }

  /** `new HighScoreEntry(...)` from the fields of a row: decoded name,
      score (field 1), hit points (field 2), wave (field 3), money (field 4). */
  function RowEntry(fields: seq<string>, c: UriCodec): Entry
    requires |fields| > 1
  {
    Entry(c.decode(fields[0]), FieldNum(fields, 1), FieldNum(fields, 3), FieldNum(fields, 4), FieldNum(fields, 2))
  }

  function OptionList(o: Option<Entry>): seq<Entry> {
    if o.Some? then [o.value] else []
  }

  /** The entries of the rows, in order, skipping the rows `ParseRow` skips. */
  function ParsedRows(rows: seq<string>, c: UriCodec): (r: seq<Entry>)
    ensures |r| <= |rows|
  {
    if rows == [] then [] else OptionList(ParseRow(rows[0], c)) + ParsedRows(rows[1..], c)
  }

  /** The table the constructor loads before sorting: none when no table
      text was found or it is empty, else the entries of its `;`-rows. */
  function Loaded(tableString: Option<string>, c: UriCodec): seq<Entry>
  {
    if tableString.None? || tableString.value == "" then []
    else ParsedRows(Split(tableString.value, ';'), c)
  }

  lemma {:induction false} ParsedRowsSnoc(rows: seq<string>, row: string, c: UriCodec)
    ensures ParsedRows(rows + [row], c) == ParsedRows(rows, c) + OptionList(ParseRow(row, c))
    decreases |rows|
  {
    if rows != [] {
      assert (rows + [row])[1..] == rows[1..] + [row];
      ParsedRowsSnoc(rows[1..], row, c);
    }
  }

  /** One pass of the loading loop: the entries of the first `idx + 1`
      rows are those of the first `idx`, then the entry of row `idx` when
      it has at least two fields. */
  lemma LoadStep(rows: seq<string>, idx: nat, c: UriCodec, loaded: seq<Entry>)
    requires idx < |rows| && loaded == ParsedRows(rows[..idx], c)
    ensures var fields := Split(rows[idx], ':');
      ParsedRows(rows[..idx + 1], c) == if |fields| > 1 then loaded + [RowEntry(fields, c)] else loaded
  {
    ParsedRowsNext(rows, idx, c);
    ParseRowFields(rows[idx], c);
  }

  lemma ParsedRowsNext(rows: seq<string>, idx: nat, c: UriCodec)
    requires idx < |rows|
    ensures ParsedRows(rows[..idx + 1], c) == ParsedRows(rows[..idx], c) + OptionList(ParseRow(rows[idx], c))
  {
    assert rows[..idx + 1] == rows[..idx] + [rows[idx]];
    ParsedRowsSnoc(rows[..idx], rows[idx], c);
  }

  lemma ParseRowFields(row: string, c: UriCodec)
    ensures var fields := Split(row, ':');
      OptionList(ParseRow(row, c)) == if |fields| > 1 then [RowEntry(fields, c)] else []
  {
  }

  /** A row written by `toString` reads back as the entry it was written
      from. */
  lemma EntryRoundTrip(e: Entry, c: UriCodec)
    requires InversePair(c)
    ensures ParseRow(Join(EntryFields(e, c), ':'), c) == Some(e)
  {
    var fs := EntryFields(e, c);
    SplitJoin(fs, ':');
    ParseNumText(e.score);
    ParseNumText(e.hitPoints);
    ParseNumText(e.wave);
    ParseNumText(e.money);
  }

  /** The rows of a table's text read back as the table; the empty piece
      after the last `;` is skipped. */
  lemma {:induction false} TableRoundTrip(t: seq<Entry>, c: UriCodec)
    requires InversePair(c)
    ensures ParsedRows(Split(TableText(t, c), ';'), c) == t
  {
    if t == [] {
      assert Split("", ';') == [""];
    } else {
      assert t == [t[0]] + t[1..];
      var body := FirstRow(t, c);
      EntryRoundTrip(t[0], c);
      TableRoundTrip(t[1..], c);
      ParsedRowsCons(body, Split(TableText(t[1..], c), ';'), c);
    }
  }

  lemma ParsedRowsCons(row: string, rest: seq<string>, c: UriCodec)
    ensures ParsedRows([row] + rest, c) == OptionList(ParseRow(row, c)) + ParsedRows(rest, c)
  {
    assert ([row] + rest)[1..] == rest;
  }

  /** The text of a non-empty table splits into the first entry's row and
      the pieces of the rest. */
  lemma FirstRow(t: seq<Entry>, c: UriCodec) returns (body: string)
    requires InversePair(c) && t != []
    ensures body == Join(EntryFields(t[0], c), ':')
    ensures Split(TableText(t, c), ';') == [body] + Split(TableText(t[1..], c), ';')
  {
    var fs := EntryFields(t[0], c);
    body := Join(fs, ':');
    assert ';' !in fs[0];
    JoinLacks(fs, ':', ';');
    SplitAfterPiece(body, ';', TableText(t[1..], c));
    assert TableText(t, c) == body + [';'] + TableText(t[1..], c);
  }

  /** Joining pieces that lack a character other than the separator gives
      a string that lacks it too. */
  lemma {:induction false} JoinLacks(ps: seq<string>, sep: char, ch: char)
    requires ch != sep
    requires forall k :: 0 <= k < |ps| ==> ch !in ps[k]
    ensures ch !in Join(ps, sep)
    decreases |ps|
  {
    if |ps| > 1 {
      JoinLacks(ps[1..], sep, ch);
    }
  }

  /** What `saveScores` stores, the constructor loads again, whether the
      table is empty or not. */
  lemma SaveLoadRoundTrip(t: seq<Entry>, c: UriCodec)
    requires InversePair(c)
    ensures Loaded(Some(SavedText(t, c)), c) == t
  {
    if t == [] {
      LoadUndefined(c);
    } else {
      TableRoundTrip(t, c);
      SavedNonEmpty(t, c);
    }
  }

  /** The text "undefined" holds no row with a `:`, so it loads as the
      empty table. */
  lemma LoadUndefined(c: UriCodec)
    ensures Loaded(Some("undefined"), c) == []
  {
    var u := "undefined";
    SplitNoSeparator(u, ';');
    assert ':' !in u;
    assert [u][1..] == [];
  }

  /** A non-empty table is saved as its text, which is not empty. */
  lemma SavedNonEmpty(t: seq<Entry>, c: UriCodec)
    requires t != []
    ensures SavedText(t, c) == TableText(t, c) != ""
  {
    assert |EntryText(t[0], c)| > 0;
  }

  // ---------------------------------------------------------------------
  // sort

  /** `b.score - a.score > 0`: the comparator of `sort` puts `b` before `a`.
      A NaN score makes the difference NaN, which orders neither way. */
  predicate Higher(b: Entry, a: Entry) {
    b.score.Int? && a.score.Int? && b.score.n > a.score.n
  }

  /** No entry scores strictly more than the one before it. */
  predicate Ordered(t: seq<Entry>) {
    forall i :: 0 < i < |t| ==> !Higher(t[i], t[i - 1])
  }

  predicate AllScored(t: seq<Entry>) {
    forall i :: 0 <= i < |t| ==> t[i].score.Int?
  }

  /** Every score is a number, none smaller than any later one. */
  predicate Descending(t: seq<Entry>) {
    && AllScored(t)
    && forall i, j :: 0 <= i < j < |t| ==> t[i].score.n >= t[j].score.n
  }

  /** Inserts `x` after the last entry of `s` that it does not beat. */
  function InsertBack(s: seq<Entry>, x: Entry): (r: seq<Entry>)
    ensures |r| == |s| + 1
    ensures r[|r| - 1] == x || (|s| > 0 && r[|r| - 1] == s[|s| - 1])
  {
    if s == [] || !Higher(x, s[|s| - 1]) then s + [x]
    else InsertBack(s[..|s| - 1], x) + [s[|s| - 1]]
  }

  /** Insertion adds exactly the inserted entry. */
  lemma {:induction false} InsertBackPermutes(s: seq<Entry>, x: Entry)
    ensures multiset(InsertBack(s, x)) == multiset(s) + multiset{x}
    decreases |s|
  {
    if s != [] && Higher(x, s[|s| - 1]) {
      var q, y := s[..|s| - 1], s[|s| - 1];
      assert s == q + [y];
      InsertBackPermutes(q, x);
    }
  }

  /** Insertion into an ordered table keeps it ordered. */
  lemma {:induction false} InsertBackOrdered(s: seq<Entry>, x: Entry)
    requires Ordered(s)
    ensures Ordered(InsertBack(s, x))
    decreases |s|
  {
    if s == [] || !Higher(x, s[|s| - 1]) {
      OrderedSnoc(s, x);
    } else {
      var q, y := s[..|s| - 1], s[|s| - 1];
      assert Ordered(q) by {
        forall i | 0 < i < |q| ensures !Higher(q[i], q[i - 1]) {
          assert q[i] == s[i] && q[i - 1] == s[i - 1];
        }
      }
      InsertBackOrdered(q, x);
      var p := InsertBack(q, x);
      assert p[|p| - 1] == x || p[|p| - 1] == s[|s| - 2];
      OrderedSnoc(p, y);
    }
  }

  /** An entry not beating the last one can follow an ordered table. */
  lemma OrderedSnoc(s: seq<Entry>, y: Entry)
    ensures Ordered(s) && (s == [] || !Higher(y, s[|s| - 1])) ==> Ordered(s + [y])
  {
  }

  /** HighScoreTable.prototype.sort, as a stable insertion sort. */
  function SortByScore(t: seq<Entry>): (r: seq<Entry>)
    ensures multiset(r) == multiset(t)
    ensures Ordered(r)
  {
    if t == [] then []
    else
      var p, x := t[..|t| - 1], t[|t| - 1];
      assert t == p + [x];
      InsertBackPermutes(SortByScore(p), x);
      InsertBackOrdered(SortByScore(p), x);
      InsertBack(SortByScore(p), x)
  }

  /** Sorting an ordered table leaves it as it is. */
  lemma {:induction false} SortOrderedIsIdentity(t: seq<Entry>)
    requires Ordered(t)
    ensures SortByScore(t) == t
  {
    if t != [] {
      var p, x := t[..|t| - 1], t[|t| - 1];
      assert Ordered(p) by {
        forall i | 0 < i < |p| ensures !Higher(p[i], p[i - 1]) {
          assert p[i] == t[i] && p[i - 1] == t[i - 1];
        }
      }
      SortOrderedIsIdentity(p);
      assert p == [] || !Higher(x, p[|p| - 1]) by {
        if p != [] {
          assert p[|p| - 1] == t[|t| - 2];
        }
      }
      calc {
        SortByScore(t);
        InsertBack(SortByScore(p), x);
        InsertBack(p, x);
        p + [x];
        t;
      }
    }
  }

  lemma {:induction false} OrderedPairs(t: seq<Entry>, i: nat, j: nat)
    requires Ordered(t) && AllScored(t)
    requires i <= j < |t|
    ensures t[i].score.n >= t[j].score.n
    decreases j - i
  {
    if i < j {
      OrderedPairs(t, i, j - 1);
    }
  }

  /** An ordered table whose scores are all numbers is in descending
      order of score. */
  lemma OrderedDescending(t: seq<Entry>)
    requires Ordered(t) && AllScored(t)
    ensures Descending(t)
  {
    forall i, j | 0 <= i < j < |t|
      ensures t[i].score.n >= t[j].score.n
    {
      OrderedPairs(t, i, j);
    }
  }

  /** `sort` leaves a table of numeric scores in descending order of score,
      holding the same entries. */
  lemma SortDescending(t: seq<Entry>)
    requires AllScored(t)
    ensures Descending(SortByScore(t)) && multiset(SortByScore(t)) == multiset(t)
  {
    var r := SortByScore(t);
    forall i | 0 <= i < |r|
      ensures r[i].score.Int?
    {
      assert r[i] in multiset(t);
    }
    OrderedDescending(r);
  }

  // ---------------------------------------------------------------------
  // addScore

  /** `score > last.score`, false when the last score is NaN. */
  predicate Beats(score: int, last: Entry) {
    last.score.Int? && score > last.score.n
  }

  /** The table `addScore` sorts: the new entry appended while there is
      room, else put in place of the last entry when it beats it. */
  function Admit(t: seq<Entry>, e: Entry): seq<Entry>
    requires e.score.Int?
  {
    if |t| < TableSize then t + [e]
    else if Beats(e.score.n, t[|t| - 1]) then t[|t| - 1 := e]
    else t
  }

  /** `addScore` grows a table with room by one entry and keeps the size of
      a full one, so a table of at most ten entries stays so. */
  lemma AddScoreSize(t: seq<Entry>, e: Entry)
    requires e.score.Int?
    ensures |t| < TableSize ==> |SortByScore(Admit(t, e))| == |t| + 1
    ensures |t| >= TableSize ==> |SortByScore(Admit(t, e))| == |t|
    ensures |t| <= TableSize ==> |SortByScore(Admit(t, e))| <= TableSize
  {
    var r := SortByScore(Admit(t, e));
    assert |r| == |multiset(r)| == |multiset(Admit(t, e))| == |Admit(t, e)|;
  }

  /** The entries after `addScore`: the old ones and the new one while
      there is room; on a full table the last one gives way to the new one
      exactly when the new score beats it. */
  lemma AddScoreContents(t: seq<Entry>, e: Entry)
    requires e.score.Int?
    ensures |t| < TableSize ==> multiset(SortByScore(Admit(t, e))) == multiset(t) + multiset{e}
    ensures |t| >= TableSize && Beats(e.score.n, t[|t| - 1]) ==>
      multiset(SortByScore(Admit(t, e))) == multiset(t) - multiset{t[|t| - 1]} + multiset{e}
    ensures |t| >= TableSize && !Beats(e.score.n, t[|t| - 1]) ==>
      multiset(SortByScore(Admit(t, e))) == multiset(t)
  {
    if |t| >= TableSize {
      var last := t[|t| - 1];
      assert t == t[..|t| - 1] + [last];
      assert t[|t| - 1 := e] == t[..|t| - 1] + [e];
    }
  }

  /** On a full, sorted table a score that does not beat the last one
      leaves the table exactly as it was. */
  lemma AddScoreRejected(t: seq<Entry>, e: Entry)
    requires e.score.Int? && Ordered(t)
    requires |t| >= TableSize && !Beats(e.score.n, t[|t| - 1])
    ensures SortByScore(Admit(t, e)) == t
  {
    SortOrderedIsIdentity(t);
  }

  /** The table after `addScore` is in descending order of score when
      every score in it was a number. */
  lemma AddScoreDescending(t: seq<Entry>, e: Entry)
    requires e.score.Int? && AllScored(t)
    ensures Descending(SortByScore(Admit(t, e)))
  {
    var a := Admit(t, e);
    forall i | 0 <= i < |a|
      ensures a[i].score.Int?
    {
    }
    SortDescending(a);
  }

  // ---------------------------------------------------------------------
  // The table

  /** The loop of the constructor over the `;`-rows: a row of at least two
      `:`-fields is appended as an entry, any other row is skipped. */
  method LoadRows(rows: seq<string>, c: UriCodec) returns (loaded: seq<Entry>)
    ensures loaded == ParsedRows(rows, c)
  {
    loaded := [];
    var idx := 0;
    while idx < |rows|
      invariant 0 <= idx <= |rows|
      invariant loaded == ParsedRows(rows[..idx], c)
    {
      var fields := Split(rows[idx], ':');
      LoadStep(rows, idx, c, loaded);
      if |fields| > 1 {
        loaded := loaded + [RowEntry(fields, c)];
      }
      idx := idx + 1;
    }
    assert rows[..idx] == rows;
  }

  /** HighScoreTable: its entries, in the order `sort` leaves them. */
  class HighScoreTable {
    var table: seq<Entry>

    predicate Valid()
      reads this
    {
      Ordered(table)
    }

    /** The constructor: the rows of the table text found in the cookie
        (`tableString`, absent when there is none) are parsed into entries
        in order, and the table is sorted. */
    constructor (tableString: Option<string>, c: UriCodec)
      ensures table == SortByScore(Loaded(tableString, c))
      ensures Valid()
    {
      var loaded: seq<Entry> := [];
      if tableString.Some? && tableString.value != "" {
        loaded := LoadRows(Split(tableString.value, ';'), c);
      }
      // this.sort()
      table := SortByScore(loaded);
    }

    /** HighScoreTable.prototype.sort. */
    method Sort()
      modifies this
      ensures table == SortByScore(old(table))
      ensures Valid()
    {
      table := SortByScore(table);
    }

    /** HighScoreTable.prototype.addScore, without the display and cookie
        updates: the entry is appended while the table has room, else it
        replaces the last entry when its score beats that entry's, and the
        table is sorted again. */
    method AddScore(name: string, score: int, wave: int, money: int, hitPoints: int)
      modifies this
      ensures table == SortByScore(Admit(old(table), Entry(name, Int(score), Int(wave), Int(money), Int(hitPoints))))
      ensures Valid()
      ensures |old(table)| < TableSize ==> |table| == |old(table)| + 1
      ensures |old(table)| >= TableSize ==> |table| == |old(table)|
      ensures old(Valid()) && |old(table)| >= TableSize && !Beats(score, old(table)[|old(table)| - 1]) ==>
        table == old(table)
    {
      var entry := Entry(name, Int(score), Int(wave), Int(money), Int(hitPoints));
      ghost var t := table;
      if |table| < TableSize {
        table := table + [entry];
      } else if Beats(score, table[|table| - 1]) {
        table := table[|table| - 1 := entry];
      }
      assert table == Admit(t, entry) by {
        if |t| >= TableSize { assert Beats(score, t[|t| - 1]) <==> Beats(entry.score.n, t[|t| - 1]); }
      }
      AddScoreSize(t, entry);
      if |t| >= TableSize && !Beats(score, t[|t| - 1]) && Ordered(t) {
        AddScoreRejected(t, entry);
      }
      Sort();
    }
  }
}
