/**
 * backend/staticfiles/js/hobby.js: the suggestion request path and the
 * merge of a clicked suggestion chip into the comma-separated hobbies input.
 */
module Hobby {
  import opened Text

  /** `pathname.replace(/\/$/, '') + '/suggest/'`. */
  function SuggestUrl(path: string): (r: string)
    ensures EndsWith(path, "/") ==> r == path[..|path| - 1] + "/suggest/"
    ensures !EndsWith(path, "/") ==> r == path + "/suggest/"
  {
    (if EndsWith(path, "/") then path[..|path| - 1] else path) + "/suggest/"
  }

  /**
   * A page path with or without one trailing slash asks the same URL; only
   * one slash is removed, so "a//" and "a" do not.
   */
  lemma SuggestUrlSlashInsensitive(path: string)
    requires !EndsWith(path, "/")
    ensures SuggestUrl(path + "/") == SuggestUrl(path)
    ensures SuggestUrl(path + "//") != SuggestUrl(path)
  {
    var p := path + "/";
    assert p[|p| - 1..] == "/";
    assert p[..|p| - 1] == path;
    var q := path + "//";
    assert q[|q| - 1..] == "/";
    assert q[..|q| - 1] == p;
    assert |SuggestUrl(q)| != |SuggestUrl(path)|;
  }

  /**
   * The chip's click handler: an empty input takes the hobby; otherwise the
   * input's trimmed non-blank comma pieces get the hobby appended and are
   * joined with ", ", unless the hobby is already one of them, in which case
   * the input is left exactly as typed.
   */
  function AddChip(value: string, hobby: string): (r: string)
    ensures value == [] ==> r == hobby
    ensures value != [] && hobby in Pieces(value, ",") ==> r == value
    ensures value != [] && hobby !in Pieces(value, ",") ==> r == Join(Pieces(value, ",") + [hobby], ", ")
  {
    if value == [] then hobby
    else
      var hobbies := Pieces(value, ",");
      if hobby in hobbies then value else Join(hobbies + [hobby], ", ")
  }

  /** Every piece of `s.split(d)` is free of `d`. */
  lemma {:induction false} SplitPiecesFree(s: string, d: char)
    ensures forall k :: 0 <= k < |SplitOn(s, [d])| ==> Free(SplitOn(s, [d])[k], d)
    decreases |s|
  {
    if StartsWith(s, [d]) {
      SplitPiecesFree(s[1..], d);
    } else if s != [] {
      SplitPiecesFree(s[1..], d);
      var rest := SplitOn(s[1..], [d]);
      assert s[0] != d;
      assert Free([s[0]] + rest[0], d);
    }
  }

  /** Trimming keeps a string free of a character. */
  lemma StripFree(s: string, d: char)
    requires Free(s, d)
    ensures Free(Strip(s), d)
  {
    var a := LeadLen(s);
    if a < |s| {
      var b := TrailLen(s);
      assert Strip(s) == s[a..|s| - b];
    }
  }

  lemma {:induction false} KeepNonBlankFree(ps: seq<string>, d: char)
    requires forall k :: 0 <= k < |ps| ==> Free(ps[k], d)
    ensures forall k :: 0 <= k < |KeepNonBlank(ps)| ==> Free(KeepNonBlank(ps)[k], d)
  {
    if ps != [] {
      StripFree(ps[0], d);
      KeepNonBlankFree(ps[1..], d);
    }
  }

  /** The pieces of the input are clean: non-empty, trimmed and comma-free. */
  lemma PiecesClean(value: string)
    ensures forall k :: 0 <= k < |Pieces(value, ",")| ==> CleanPiece(Pieces(value, ",")[k], ',')
  {
    SplitPiecesFree(value, ',');
    KeepNonBlankFree(SplitOn(value, ","), ',');
  }

  /**
   * For a clean hobby not yet listed, the input afterwards reads back as
   * the earlier pieces followed by the hobby.
   */
  lemma AddChipAppends(value: string, hobby: string)
    requires value != [] && CleanPiece(hobby, ',') && hobby !in Pieces(value, ",")
    ensures Pieces(AddChip(value, hobby), ",") == Pieces(value, ",") + [hobby]
  {
    var ps := Pieces(value, ",") + [hobby];
    PiecesClean(value);
    assert forall k :: 0 <= k < |ps| ==> CleanPiece(ps[k], ',');
    PiecesJoin(ps, ',');
  }

  /** A clean hobby is listed after its chip is clicked. */
  lemma AddChipLists(value: string, hobby: string)
    requires CleanPiece(hobby, ',')
    ensures hobby in Pieces(AddChip(value, hobby), ",")
  {
    if value == [] {
      PiecesJoin([hobby], ',');
    } else if hobby !in Pieces(value, ",") {
      AddChipAppends(value, hobby);
    }
  }

  /** Clicking the same chip twice is clicking it once. */
  lemma AddChipIdempotent(value: string, hobby: string)
    requires CleanPiece(hobby, ',')
    ensures AddChip(AddChip(value, hobby), hobby) == AddChip(value, hobby)
  {
    AddChipLists(value, hobby);
  }
}
