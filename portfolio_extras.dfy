/**
 * backend/users/templatetags/portfolio_extras.py: the `split_technologies`
 * template filter.
 */
module PortfolioExtras {
  import opened Text
  import opened Wrappers

  /**
   * `split_technologies(value, delimiter)`: no pieces for a falsy value,
   * otherwise the stripped non-blank pieces of `value.split(delimiter)`.
   * `str.split` raises `ValueError` for an empty delimiter; that is the `Err`.
   */
  function SplitTechnologies(value: Option<string>, delimiter: string): (r: Result<seq<string>, string>)
    ensures value.None? || value.value == [] ==> r == Ok([])
    ensures r.Err? <==> value.Some? && value.value != [] && delimiter == []
    ensures r.Ok? ==> forall k :: 0 <= k < |r.value| ==> r.value[k] != [] && Strip(r.value[k]) == r.value[k]
  {
    if value.None? || value.value == [] then Ok([])
    else if delimiter == [] then Err("empty separator")
    else Ok(Pieces(value.value, delimiter))
  }

  /** Each piece stripped. */
  function Strips(ps: seq<string>): (r: seq<string>)
    ensures |r| == |ps| && forall j :: 0 <= j < |ps| ==> r[j] == Strip(ps[j])
  {
    seq(|ps|, j requires 0 <= j < |ps| => Strip(ps[j]))
  }

  /**
   * `idx` picks, in increasing order, the positions of `st` that form `r`,
   * and every position not equal to `blank` is picked.
   */
  predicate Picks<T(==)>(st: seq<T>, r: seq<T>, idx: seq<nat>, blank: T) {
    |idx| == |r| &&
    (forall k :: 0 <= k < |idx| ==> idx[k] < |st| && r[k] == st[idx[k]]) &&
    (forall k, l :: 0 <= k < l < |idx| ==> idx[k] < idx[l]) &&
    (forall j :: 0 <= j < |st| && st[j] != blank ==> j in idx)
  }

  /**
   * The output is the pieces of the split, in order, each stripped, with
   * exactly the blank ones skipped.
   */
  lemma {:induction false} KeepNonBlankOrder(ps: seq<string>) returns (idx: seq<nat>)
    ensures Picks(Strips(ps), KeepNonBlank(ps), idx, [])
  {
    if ps == [] {
      idx := [];
    } else {
      var rest := KeepNonBlankOrder(ps[1..]);
      var st := Strips(ps);
      assert Strips(ps[1..]) == st[1..];
      if Strip(ps[0]) == [] {
        idx := Shift(rest);
        PicksSkip(st, KeepNonBlank(ps[1..]), rest, []);
      } else {
        idx := [0] + Shift(rest);
        PicksKeep(st, KeepNonBlank(ps[1..]), rest, []);
      }
    }
  }

  function Shift(xs: seq<nat>): (ys: seq<nat>)
    ensures |ys| == |xs| && forall k :: 0 <= k < |xs| ==> ys[k] == xs[k] + 1
  {
    seq(|xs|, k requires 0 <= k < |xs| => xs[k] + 1)
  }

  lemma {:induction false} ShiftPicks<T>(st: seq<T>, r: seq<T>, rest: seq<nat>, blank: T)
    requires st != [] && Picks(st[1..], r, rest, blank)
    ensures forall k :: 0 <= k < |rest| ==> Shift(rest)[k] < |st| && r[k] == st[Shift(rest)[k]]
    ensures forall k, l :: 0 <= k < l < |rest| ==> Shift(rest)[k] < Shift(rest)[l]
    ensures forall j :: 1 <= j < |st| && st[j] != blank ==> j in Shift(rest)
  {
    forall j | 1 <= j < |st| && st[j] != blank ensures j in Shift(rest) {
      assert st[1..][j - 1] == st[j];
      var k :| 0 <= k < |rest| && rest[k] == j - 1;
      assert Shift(rest)[k] == j;
    }
  }

  lemma {:induction false} PicksSkip<T>(st: seq<T>, r: seq<T>, rest: seq<nat>, blank: T)
    requires st != [] && st[0] == blank && Picks(st[1..], r, rest, blank)
    ensures Picks(st, r, Shift(rest), blank)
  {
    ShiftPicks(st, r, rest, blank);
  }

  lemma {:induction false} PicksKeep<T>(st: seq<T>, r: seq<T>, rest: seq<nat>, blank: T)
    requires st != [] && Picks(st[1..], r, rest, blank)
    ensures Picks(st, [st[0]] + r, [0] + Shift(rest), blank)
  {
    ShiftPicks(st, r, rest, blank);
    var sh := Shift(rest);
    ConsPicksAt(st, r, sh);
    ConsIncreasing(sh);
    ConsCovers(st, sh, blank);
  }

  lemma {:induction false} ConsPicksAt<T>(st: seq<T>, r: seq<T>, sh: seq<nat>)
    requires st != [] && |sh| == |r|
    requires forall k :: 0 <= k < |sh| ==> sh[k] < |st| && r[k] == st[sh[k]]
    ensures forall k :: 0 <= k < |sh| + 1 ==> ([0] + sh)[k] < |st| && ([st[0]] + r)[k] == st[([0] + sh)[k]]
  {
    forall k | 0 <= k < |sh| + 1 ensures ([0] + sh)[k] < |st| && ([st[0]] + r)[k] == st[([0] + sh)[k]] {
      if k > 0 { assert ([0] + sh)[k] == sh[k - 1] && ([st[0]] + r)[k] == r[k - 1]; }
    }
  }

  lemma {:induction false} ConsIncreasing(sh: seq<nat>)
    requires forall k :: 0 <= k < |sh| ==> sh[k] > 0
    requires forall k, l :: 0 <= k < l < |sh| ==> sh[k] < sh[l]
    ensures forall k, l :: 0 <= k < l < |sh| + 1 ==> ([0] + sh)[k] < ([0] + sh)[l]
  {
    forall k, l | 0 <= k < l < |sh| + 1 ensures ([0] + sh)[k] < ([0] + sh)[l] {
      assert ([0] + sh)[l] == sh[l - 1];
      if k > 0 { assert ([0] + sh)[k] == sh[k - 1]; }
    }
  }

  lemma {:induction false} ConsCovers<T>(st: seq<T>, sh: seq<nat>, blank: T)
    requires forall j :: 1 <= j < |st| && st[j] != blank ==> j in sh
    ensures forall j :: 0 <= j < |st| && st[j] != blank ==> j in [0] + sh
  {
    forall j | 0 <= j < |st| && st[j] != blank ensures j in [0] + sh {
      if j > 0 {
        var k :| 0 <= k < |sh| && sh[k] == j;
        assert ([0] + sh)[k + 1] == j;
      }
    }
  }

  /** Technologies joined with ", " come back unchanged. */
  lemma SplitTechnologiesJoin(techs: seq<string>)
    requires techs != []
    requires forall k :: 0 <= k < |techs| ==> CleanPiece(techs[k], ',')
    ensures SplitTechnologies(Some(Join(techs, ", ")), ",") == Ok(techs)
  {
    assert techs[0] != [];
    JoinNonEmpty(techs, ", ");
    PiecesJoin(techs, ',');
  }

  lemma JoinNonEmpty(ps: seq<string>, sep: string)
    requires ps != [] && ps[0] != []
    ensures Join(ps, sep) != []
  {
    if |ps| > 1 { assert Join(ps, sep)[0] == ps[0][0]; }
  }
}
