/**
 * Reading the validator's error paths (`$.name`, `$.friends[0].name`):
 * Ruby's `String#split('.')`, the second segment that names the field, and
 * the `/\[\d+\]/` test that marks a path inside an array element.
 */
module ErrorPaths {
  import opened Wrappers

  /** `s` cut at every `.`: always at least one piece, empty pieces kept. */
  function Pieces(s: string): (ps: seq<string>)
    ensures |ps| >= 1
    ensures forall i :: 0 <= i < |ps| ==> '.' !in ps[i]
    ensures Join(ps) == s
  {
    if s == [] then [""]
    else
      var rest := Pieces(s[1..]);
      if s[0] == '.' then [""] + rest
      else [[s[0]] + rest[0]] + rest[1..]
  }

  /** The pieces glued back together with `.` between them. */
  function Join(ps: seq<string>): string
    requires |ps| >= 1
  {
    if |ps| == 1 then ps[0] else ps[0] + "." + Join(ps[1..])
  }

  /** Cutting a join of dot-free pieces gives the pieces back. */
  lemma {:induction false} PiecesOfJoin(ps: seq<string>)
    requires |ps| >= 1
    requires forall i :: 0 <= i < |ps| ==> '.' !in ps[i]
    ensures Pieces(Join(ps)) == ps
  {
    if |ps| == 1 {
      PiecesOfDotFree(ps[0]);
    } else {
      PiecesOfJoin(ps[1..]);
      PiecesPrefix(ps[0], Join(ps[1..]));
      assert [ps[0]] + ps[1..] == ps;
    }
  }

  lemma {:induction false} PiecesOfDotFree(s: string)
    requires '.' !in s
    ensures Pieces(s) == [s]
  {
    if s != [] {
      PiecesOfDotFree(s[1..]);
    }
  }

  /** A dot-free head followed by `.` becomes a piece of its own. */
  lemma {:induction false} PiecesPrefix(a: string, rest: string)
    requires '.' !in a
    ensures Pieces(a + "." + rest) == [a] + Pieces(rest)
  {
    if a == [] {
      assert a + "." + rest == "." + rest;
      assert ("." + rest)[1..] == rest;
    } else {
      assert (a + "." + rest)[1..] == a[1..] + "." + rest;
      PiecesPrefix(a[1..], rest);
      assert [a[0]] + a[1..] == a;
    }
  }

  /** Ruby's `split` with no limit drops the trailing empty fields. */
  function DropTrailingEmpty(ps: seq<string>): (r: seq<string>)
    ensures |r| <= |ps| && r == ps[..|r|]
    ensures r == [] || r[|r| - 1] != ""
    ensures forall i :: |r| <= i < |ps| ==> ps[i] == ""
  {
    if ps == [] then []
    else if ps[|ps| - 1] == "" then DropTrailingEmpty(ps[..|ps| - 1])
    else ps
  }

  /** `s.split('.')`: the dot-separated pieces of `s` up to its last non-empty one. */
  function RubySplit(s: string): (r: seq<string>)
    ensures forall i :: 0 <= i < |r| ==> '.' !in r[i]
    ensures r == [] || r[|r| - 1] != ""
    ensures |r| <= |Pieces(s)| && r == Pieces(s)[..|r|]
    ensures forall i :: |r| <= i < |Pieces(s)| ==> Pieces(s)[i] == ""
  {
    DropTrailingEmpty(Pieces(s))
  }

  /**
   * `s.split('.')[1]`: the field an error path names, or nil. It is the
   * second dot-separated piece, and it is nil exactly when every piece after
   * the first is empty (`name`, `$.`, `$..`).
   */
  function SecondSegment(path: string): (r: Option<string>)
    ensures r.Some? ==> |Pieces(path)| >= 2 && r.value == Pieces(path)[1]
    ensures r.None? <==> forall i :: 1 <= i < |Pieces(path)| ==> Pieces(path)[i] == ""
  {
    var parts := RubySplit(path);
    if |parts| >= 2 then
      assert Pieces(path)[|parts| - 1] == parts[|parts| - 1] != "";
      Some(parts[1])
    else None
  }

  /** `a.b` and `a.b.rest` name the field `b`, for dot-free `a` and non-empty dot-free `b`. */
  lemma SecondSegmentOf(a: string, b: string, rest: string)
    requires '.' !in a && '.' !in b && b != ""
    requires rest == "" || rest[0] == '.'
    ensures SecondSegment(a + "." + b + rest) == Some(b)
  {
    var s := a + "." + b + rest;
    var ps: seq<string>;
    if rest == "" {
      ps := [a, b];
      assert Join(ps) == s;
    } else {
      ps := [a, b] + Pieces(rest[1..]);
      assert rest == "." + rest[1..];
      assert Join(ps) == s by {
        assert ps[1..] == [b] + Pieces(rest[1..]);
        assert Join(ps[1..]) == b + "." + Join(Pieces(rest[1..]));
      }
    }
    PiecesOfJoin(ps);
  }

  /** A path without any `.` has no second segment. */
  lemma NoDotNoSecondSegment(path: string)
    requires '.' !in path
    ensures SecondSegment(path).None?
  {
    PiecesOfDotFree(path);
  }

  predicate IsDigit(c: char) {
    '0' <= c <= '9'
  }

  /** `s[i..j+1]` is `[`, one or more digits, `]`. */
  ghost predicate IndexMarkerAt(s: string, i: int, j: int) {
    0 <= i && i + 1 < j < |s| && s[i] == '[' && s[j] == ']' &&
    forall m :: i < m < j ==> IsDigit(s[m])
  }

  /** `s =~ /\[\d+\]/`. */
  ghost predicate ContainsIndexMarker(s: string) {
    exists i, j :: IndexMarkerAt(s, i, j)
  }

  /** `s` starts with one or more digits followed by `]`. */
  function DigitsThenBracket(s: string): (r: bool)
    ensures r <==> exists j :: 0 < j < |s| && s[j] == ']' && forall m :: 0 <= m < j ==> IsDigit(s[m])
  {
    if |s| < 2 || !IsDigit(s[0]) then false
    else if s[1] == ']' then true
    else
      var r := DigitsThenBracket(s[1..]);
      assert r ==> exists j :: 0 < j < |s| && s[j] == ']' && forall m :: 0 <= m < j ==> IsDigit(s[m]) by {
        if r {
          var j :| 0 < j < |s[1..]| && s[1..][j] == ']' && forall m :: 0 <= m < j ==> IsDigit(s[1..][m]);
          assert s[j + 1] == ']' && forall m :: 0 <= m < j + 1 ==> IsDigit(s[m]);
        }
      }
      assert (exists j :: 0 < j < |s| && s[j] == ']' && forall m :: 0 <= m < j ==> IsDigit(s[m])) ==> r by {
        if exists j :: 0 < j < |s| && s[j] == ']' && forall m :: 0 <= m < j ==> IsDigit(s[m]) {
          var j :| 0 < j < |s| && s[j] == ']' && forall m :: 0 <= m < j ==> IsDigit(s[m]);
          assert j != 1;
          assert s[1..][j - 1] == ']' && forall m :: 0 <= m < j - 1 ==> IsDigit(s[1..][m]);
        }
      }
      r
  }

  /** `_is_array_error?`: the path contains `[`, digits, `]` somewhere. */
  function IsArrayError(key: string): (r: bool)
    ensures r <==> ContainsIndexMarker(key)
  {
    if key == [] then false
    else if key[0] == '[' && DigitsThenBracket(key[1..]) then
      assert ContainsIndexMarker(key) by {
        var j :| 0 < j < |key[1..]| && key[1..][j] == ']' && forall m :: 0 <= m < j ==> IsDigit(key[1..][m]);
        assert IndexMarkerAt(key, 0, j + 1);
      }
      true
    else
      var r := IsArrayError(key[1..]);
      assert r ==> ContainsIndexMarker(key) by {
        if r {
          var i, j :| IndexMarkerAt(key[1..], i, j);
          assert IndexMarkerAt(key, i + 1, j + 1);
        }
      }
      assert ContainsIndexMarker(key) ==> r by {
        if ContainsIndexMarker(key) {
          var i, j :| IndexMarkerAt(key, i, j);
          assert IndexMarkerAt(key[1..], i - 1, j - 1);
        }
      }
      r
  }
}
