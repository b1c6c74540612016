/**
 * Cutting a JSON value out of free text (`toJSON` of src/infras/libs/utils.ts, for
 * text without fenced code blocks): the piece from the first opening bracket to
 * the bracket that closes it.
 */
module BracketScan {

  datatype Scan = Absent | Piece(text: string) | Unclosed

  /** The number of opening minus closing brackets. */
  function Depth(s: string, open: char, close: char): int {
    if s == "" then 0
    else Depth(s[..|s| - 1], open, close) + Weight(s[|s| - 1], open, close)
  }

  function Weight(c: char, open: char, close: char): int {
    if c == open then 1 else if c == close then -1 else 0
  }

  /** Where the first opening bracket is, if any. */
  ghost predicate FirstOpen(s: string, open: char, i: nat) {
    i < |s| && s[i] == open && forall k :: 0 <= k < i ==> s[k] != open
  }

  /** A piece that starts at `i`, closes every bracket it opens, and none earlier than at its end. */
  ghost predicate ShortestBalanced(s: string, open: char, close: char, i: nat, piece: string) {
    && i < |s| && piece != "" && piece <= s[i..]
    && Depth(piece, open, close) == 0
    && forall k :: 0 < k < |piece| ==> Depth(piece[..k], open, close) > 0
  }

  /** From `i` on, the brackets never close. */
  ghost predicate NeverCloses(s: string, open: char, close: char, i: nat) {
    i < |s| && forall k :: 0 < k <= |s[i..]| ==> Depth(s[i..][..k], open, close) > 0
  }

  method Extract(txt: string, isArray: bool) returns (r: Scan)
    ensures var open := if isArray then '[' else '{';
            var close := if isArray then ']' else '}';
            && (r.Absent? <==> open !in txt)
            && (r.Piece? ==> exists i :: FirstOpen(txt, open, i) && ShortestBalanced(txt, open, close, i, r.text))
            && (r.Unclosed? ==> exists i :: FirstOpen(txt, open, i) && NeverCloses(txt, open, close, i))
  {
    var open := if isArray then '[' else '{';
    var close := if isArray then ']' else '}';
    var idx := 0;
    while idx < |txt| && txt[idx] != open
      invariant 0 <= idx <= |txt| && forall k :: 0 <= k < idx ==> txt[k] != open
    {
      idx := idx + 1;
    }
    if idx == |txt| {
      return Absent;
    }
    ghost var first := idx;
    assert FirstOpen(txt, open, first);
    var str := txt[idx..];
    var encloseCount := 1;
    idx := 1;
    assert str[..1] == [open];
    assert Depth(str[..1], open, close) == 1 by {
      assert str[..1][..0] == "";
    }
    while idx < |str|
      invariant 1 <= idx <= |str|
      invariant encloseCount == Depth(str[..idx], open, close) > 0
      invariant forall k :: 0 < k <= idx ==> Depth(str[..k], open, close) > 0
    {
      assert str[..idx + 1][..idx] == str[..idx];
      if str[idx] == open {
        encloseCount := encloseCount + 1;
      } else if str[idx] == close {
        encloseCount := encloseCount - 1;
        if encloseCount == 0 {
          idx := idx + 1;
          var piece := str[..idx];
          assert forall k :: 0 < k < idx ==> piece[..k] == str[..k];
          assert ShortestBalanced(txt, open, close, first, piece);
          return Piece(piece);
        }
      }
      idx := idx + 1;
    }
    assert NeverCloses(txt, open, close, first);
    return Unclosed;
  }

  /** The first opening bracket and the piece it starts are unique, and having one excludes never closing. */
  lemma PieceIsUnique(s: string, open: char, close: char, i: nat, j: nat, p: string, q: string)
    requires FirstOpen(s, open, i) && FirstOpen(s, open, j)
    requires ShortestBalanced(s, open, close, i, p)
    ensures i == j && !NeverCloses(s, open, close, i)
    ensures ShortestBalanced(s, open, close, j, q) ==> p == q
  {
    assert s[i..][..|p|] == p;
    if ShortestBalanced(s, open, close, j, q) {
      var m := if |p| < |q| then |p| else |q|;
      assert p[..m] == s[i..][..m] == q[..m];
      assert p[..|p|] == p && q[..|q|] == q;
    }
  }

  /** A piece is balanced in any text that it begins. */
  lemma PieceOfPrefix(p: string, tail: string, open: char, close: char)
    requires ShortestBalanced(p, open, close, 0, p)
    ensures ShortestBalanced(p + tail, open, close, 0, p)
  {
    assert (p + tail)[0..] == p + tail;
  }

  /** Brackets inside string literals count like any others: whatever follows, the piece ends within this literal. */
  lemma QuotedBracketsCount(tail: string)
    ensures ShortestBalanced("{\"a\":\"}" + tail, '{', '}', 0, "{\"a\":\"}")
  {
    var p := "{\"a\":\"}";
    assert p[0..] == p;
    forall k | 0 < k < |p|
      ensures Depth(p[..k], '{', '}') == 1
    {
      OneOpen(p, k);
    }
    assert p[..|p| - 1] == p[..6];
    PieceOfPrefix(p, tail, '{', '}');
  }

  lemma {:induction false} OneOpen(p: string, k: nat)
    requires p == "{\"a\":\"}" && 0 < k < |p|
    ensures Depth(p[..k], '{', '}') == 1
  {
    assert p[..k][..k - 1] == p[..k - 1];
    if k > 1 {
      OneOpen(p, k - 1);
    }
  }
}
