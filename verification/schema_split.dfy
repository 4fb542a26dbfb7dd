/**
 * The database setup script's reading of the schema text: split on every
 * `;`, trim each piece, and keep the pieces that are non-empty and do not
 * start with `--`.
 */
module SchemaSplit {
  import opened Text
  import opened Seqs

  /** The pieces separated by `;`, glued back with `;` (`Array.prototype.join(';')`). */
  function Join(pieces: seq<string>): string {
    if pieces == [] then []
    else if |pieces| == 1 then pieces[0]
    else pieces[0] + [';'] + Join(pieces[1..])
  }

  /** `split(';')`: the text between consecutive separators, in order; never an empty list. */
  function Split(s: string): (r: seq<string>)
    ensures |r| >= 1
  {
    if s == [] then [[]]
    else
      var rest := Split(s[1..]);
      if s[0] == ';' then [[]] + rest
      else [[s[0]] + rest[0]] + rest[1..]
  }

  /** The pieces hold no separator. */
  lemma {:induction false} SplitPiecesFree(s: string)
    ensures forall i :: 0 <= i < |Split(s)| ==> ';' !in Split(s)[i]
    decreases |s|
  {
    if s != [] {
      var rest := Split(s[1..]);
      SplitPiecesFree(s[1..]);
      if s[0] != ';' {
        var r := [[s[0]] + rest[0]] + rest[1..];
        assert Split(s) == r;
        forall i | 0 <= i < |r| ensures ';' !in r[i] {
          if i > 0 {
            assert r[i] == rest[i];
          }
        }
      }
    }
  }

  /** The pieces join back into the text. */
  lemma {:induction false} JoinSplit(s: string)
    ensures Join(Split(s)) == s
    decreases |s|
  {
    if s != [] {
      var rest := Split(s[1..]);
      JoinSplit(s[1..]);
      assert s == [s[0]] + s[1..];
      if s[0] == ';' {
        JoinAfterSeparator(rest);
      } else {
        JoinAfterOther(s[0], rest);
      }
    }
  }

  /** An empty first piece joins to a leading separator. */
  lemma JoinAfterSeparator(rest: seq<string>)
    requires |rest| >= 1
    ensures Join([[]] + rest) == [';'] + Join(rest)
  {
    assert ([[]] + rest)[1..] == rest;
  }

  /** A character put before the first piece comes first in the join. */
  lemma JoinAfterOther(c: char, rest: seq<string>)
    requires |rest| >= 1
    ensures Join([[c] + rest[0]] + rest[1..]) == [c] + Join(rest)
  {
    var r := [[c] + rest[0]] + rest[1..];
    assert |r| == |rest| && r[0] == [c] + rest[0] && r[1..] == rest[1..];
    if |rest| > 1 {
      var tail := Join(rest[1..]);
      assert Join(r) == r[0] + [';'] + tail;
      assert Join(rest) == rest[0] + [';'] + tail;
      Regroup([c], rest[0], [';'], tail);
    }
  }

  /** A piece without a separator is split off whole. */
  lemma {:induction false} SplitNoSeparator(p: string)
    requires ';' !in p
    ensures Split(p) == [p]
    decreases |p|
  {
    if p != [] {
      SplitNoSeparator(p[1..]);
      assert p == [p[0]] + p[1..];
    }
  }

  /** A separator between two texts splits each on its own. */
  lemma {:induction false} SplitConcat(a: string, b: string)
    ensures Split(a + [';'] + b) == Split(a) + Split(b)
    decreases |a|
  {
    if a == [] {
      assert a + [';'] + b == [';'] + b;
      assert ([';'] + b)[1..] == b;
    } else {
      HeadTail(a + [';'], b);
      HeadTail(a, [';']);
      SplitConcat(a[1..], b);
      var p, q := Split(a[1..]), Split(b);
      if a[0] == ';' {
        Assoc([[]], p, q);
      } else {
        HeadTail(p, q);
        Assoc([[a[0]] + p[0]], p[1..], q);
      }
    }
  }

  /** Splitting undoes joining, for pieces without a separator. */
  lemma {:induction false} SplitJoin(pieces: seq<string>)
    requires |pieces| >= 1
    requires forall i :: 0 <= i < |pieces| ==> ';' !in pieces[i]
    ensures Split(Join(pieces)) == pieces
    decreases |pieces|
  {
    if |pieces| == 1 {
      SplitNoSeparator(pieces[0]);
    } else {
      SplitConcat(pieces[0], Join(pieces[1..]));
      SplitNoSeparator(pieces[0]);
      SplitJoin(pieces[1..]);
      assert pieces == [pieces[0]] + pieces[1..];
    }
  }

  /** The filter's test on a trimmed piece. */
  predicate Kept(stmt: string) {
    |stmt| > 0 && !StartsWith(stmt, "--")
  }

  /** Each piece's trim, in order. */
  function Trims(pieces: seq<string>): (r: seq<string>) {
    Map(Trim, pieces)
  }

  /** The trims the filter keeps, in order. */
  function Keep(ts: seq<string>): (r: seq<string>)
    ensures |r| <= |ts|
  {
    if ts == [] then [] else KeepOne(ts[0]) + Keep(ts[1..])
  }

  /** One trim's contribution: itself when kept, nothing otherwise. */
  function KeepOne(t: string): seq<string> {
    if Kept(t) then [t] else []
  }

  /** Trimming and filtering a list of pieces, in order. */
  function Clean(pieces: seq<string>): seq<string> {
    Keep(Trims(pieces))
  }

  lemma {:induction false} KeepConcat(a: seq<string>, b: seq<string>)
    ensures Keep(a + b) == Keep(a) + Keep(b)
    decreases |a|
  {
    if a == [] {
      assert a + b == b;
    } else {
      HeadTail(a, b);
      KeepConcat(a[1..], b);
      Assoc(KeepOne(a[0]), Keep(a[1..]), Keep(b));
    }
  }

  /** Cleaning works piece by piece: a concatenation cleans to the concatenation. */
  lemma CleanConcat(a: seq<string>, b: seq<string>)
    ensures Clean(a + b) == Clean(a) + Clean(b)
  {
    MapConcat(Trim, a, b);
    KeepConcat(Trims(a), Trims(b));
  }

  /** The filter keeps exactly the members that pass its test. */
  lemma {:induction false} KeepMembers(ts: seq<string>, x: string)
    ensures x in Keep(ts) <==> Kept(x) && x in ts
    decreases |ts|
  {
    if ts != [] {
      KeepMembers(ts[1..], x);
      assert ts == [ts[0]] + ts[1..];
    }
  }

  /** Some piece trims to `x`. */
  ghost predicate TrimsTo(pieces: seq<string>, x: string) {
    exists i :: 0 <= i < |pieces| && Trim(pieces[i]) == x
  }

  /** The statements are exactly the kept trims of the pieces. */
  lemma CleanMembers(pieces: seq<string>, x: string)
    ensures x in Clean(pieces) <==> Kept(x) && TrimsTo(pieces, x)
  {
    KeepMembers(Trims(pieces), x);
    if x in Trims(pieces) {
      var i :| 0 <= i < |Trims(pieces)| && Trims(pieces)[i] == x;
      assert Trim(pieces[i]) == x;
    }
    if TrimsTo(pieces, x) {
      var i :| 0 <= i < |pieces| && Trim(pieces[i]) == x;
      assert Trims(pieces)[i] == x;
    }
  }

  /** Trimming takes a slice, so it brings in no character. */
  lemma TrimKeepsOut(s: string, c: char)
    requires c !in s
    ensures c !in Trim(s)
  {
    var a, b := TrimSlice(s);
    forall k | 0 <= k < b - a ensures Trim(s)[k] != c {
      assert Trim(s)[k] == s[a + k];
    }
  }

  /**
   * A statement is non-empty, does not open with a comment marker, holds no
   * separator and has no whitespace at either end.
   */
  ghost predicate StatementShape(st: string) {
    && st != []
    && !StartsWith(st, "--")
    && ';' !in st
    && Trim(st) == st
  }

  /** A kept piece has the shape of a statement. */
  lemma KeptShape(p: string)
    requires ';' !in p
    requires Kept(Trim(p))
    ensures StatementShape(Trim(p))
  {
    TrimKeepsOut(p, ';');
    TrimOfTrimmed(Trim(p));
  }

  /** Every cleaned piece has the shape of a statement. */
  lemma CleanShape(pieces: seq<string>)
    requires forall i :: 0 <= i < |pieces| ==> ';' !in pieces[i]
    ensures forall k :: 0 <= k < |Clean(pieces)| ==> StatementShape(Clean(pieces)[k])
  {
    forall k | 0 <= k < |Clean(pieces)| ensures StatementShape(Clean(pieces)[k]) {
      var x := Clean(pieces)[k];
      CleanMembers(pieces, x);
      var i :| 0 <= i < |pieces| && Trim(pieces[i]) == x;
      KeptShape(pieces[i]);
    }
  }

  /** The statements the setup script sends to the server, in schema order. */
  function Statements(schema: string): seq<string> {
    Clean(Split(schema))
  }

  /**
   * Every statement has the shape of one, and a string is a statement
   * exactly when it is the kept trim of some piece of the schema.
   */
  lemma StatementsShape(schema: string)
    ensures forall k :: 0 <= k < |Statements(schema)| ==> StatementShape(Statements(schema)[k])
    ensures forall x :: x in Statements(schema) <==> Kept(x) && TrimsTo(Split(schema), x)
  {
    var pieces := Split(schema);
    SplitPiecesFree(schema);
    CleanShape(pieces);
    forall x ensures x in Clean(pieces) <==> Kept(x) && TrimsTo(pieces, x) {
      CleanMembers(pieces, x);
    }
  }

  /**
   * The statements keep the schema's order: text before a separator yields
   * its statements first, the text after yields the rest.
   */
  lemma StatementsConcat(a: string, b: string)
    ensures Statements(a + [';'] + b) == Statements(a) + Statements(b)
  {
    SplitConcat(a, b);
    CleanConcat(Split(a), Split(b));
  }

  /** The loop's own emptiness test never skips a statement the filter kept. */
  lemma StatementsAllRun(schema: string)
    ensures forall k :: 0 <= k < |Statements(schema)| ==> Trim(Statements(schema)[k]) != []
  {
    StatementsShape(schema);
  }

  /** A piece without a separator yields its trim alone, when kept, and nothing otherwise. */
  lemma StatementsOfPiece(p: string)
    requires forall i :: 0 <= i < |p| ==> p[i] != ';'
    ensures Statements(p) == KeepOne(Trim(p))
  {
    SplitNoSeparator(p);
    assert Trims([p]) == [Trim(p)];
    assert Keep([Trim(p)]) == KeepOne(Trim(p)) + [];
  }

  /**
   * A piece whose first line is a comment is dropped whole, statement and
   * all: with `--c`, a newline and `b` between two separators, `b` never
   * reaches the server.
   */
  lemma CommentedPieceDropped(a: string, p: string, b: string)
    requires forall i :: 0 <= i < |p| ==> p[i] != ';'
    requires StartsWith(Trim(p), "--")
    ensures Statements(a + [';'] + p + [';'] + b) == Statements(a) + Statements(b)
  {
    var q := p + [';'] + b;
    assert a + [';'] + p + [';'] + b == a + [';'] + q;
    StatementsConcat(a, q);
    PieceDropped(p, b);
  }

  /** A dropped piece before a separator contributes nothing. */
  lemma PieceDropped(p: string, b: string)
    requires forall i :: 0 <= i < |p| ==> p[i] != ';'
    requires !Kept(Trim(p))
    ensures Statements(p + [';'] + b) == Statements(b)
  {
    StatementsConcat(p, b);
    StatementsOfPiece(p);
    assert Statements(p) == [];
  }

  lemma ExampleCommentedPiece()
    ensures StartsWith(Trim("--c\nb"), "--")
  {
    var c := "--c\nb";
    assert !IsJsSpace(c[0]) && !IsJsSpace(c[|c| - 1]);
    TrimOfTrimmed(c);
    assert c[..2] == "--";
  }
}
