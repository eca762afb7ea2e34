/** Node names in `erlang_dist/src/inet_tcp_dist.erl`: splitting at a separator, with the source's accumulator. */
module NodeNames {
  import opened Lists

  /** split_node(Chars, Chr, Ack): `ack` holds the current piece, last character first. */
  function SplitNode(chars: string, chr: char, ack: string): seq<string> {
    if chars == "" then [Reverse(ack)]
    else if chars[0] == chr then [Reverse(ack)] + SplitNode(chars[1..], chr, "")
    else SplitNode(chars[1..], chr, [chars[0]] + ack)
  }

  function Join(pieces: seq<string>, chr: char): string
    requires pieces != []
  {
    if |pieces| == 1 then pieces[0] else pieces[0] + [chr] + Join(pieces[1..], chr)
  }

  function Count(s: string, chr: char): nat {
    if s == "" then 0 else (if s[0] == chr then 1 else 0) + Count(s[1..], chr)
  }

  predicate Free(pieces: seq<string>, chr: char) {
    forall i :: 0 <= i < |pieces| ==> chr !in pieces[i]
  }

  /** select and is_node_name. */
  predicate IsNodeName(node: string) {
    |SplitNode(node, '@', "")| == 2
  }

  lemma ReversePush(c: char, ack: string)
    ensures Reverse([c] + ack) == Reverse(ack) + [c]
  {
    assert ([c] + ack)[1..] == ack;
  }

  /** The pieces joined again are the accumulated piece followed by the characters. */
  lemma {:induction false} SplitThenJoin(chars: string, chr: char, ack: string)
    ensures SplitNode(chars, chr, ack) != []
    ensures Join(SplitNode(chars, chr, ack), chr) == Reverse(ack) + chars
  {
    if chars != "" {
      assert chars == [chars[0]] + chars[1..];
      if chars[0] == chr {
        SplitThenJoin(chars[1..], chr, "");
        assert SplitNode(chars, chr, ack)[1..] == SplitNode(chars[1..], chr, "");
      } else {
        SplitThenJoin(chars[1..], chr, [chars[0]] + ack);
        ReversePush(chars[0], ack);
      }
    }
  }

  /** There is one piece more than separators, and no piece holds a separator. */
  lemma {:induction false} SplitPieces(chars: string, chr: char, ack: string)
    requires chr !in ack
    ensures |SplitNode(chars, chr, ack)| == Count(chars, chr) + 1
    ensures Free(SplitNode(chars, chr, ack), chr)
  {
    ReverseMembers(ack);
    if chars != "" {
      if chars[0] == chr {
        SplitPieces(chars[1..], chr, "");
      } else {
        SplitPieces(chars[1..], chr, [chars[0]] + ack);
      }
    }
  }

  /** A piece without separators is taken whole. */
  lemma {:induction false} SplitSkips(piece: string, rest: string, chr: char, ack: string)
    requires chr !in piece
    ensures SplitNode(piece + rest, chr, ack) == SplitNode(rest, chr, Reverse(piece) + ack)
  {
    if piece == "" {
      assert piece + rest == rest && Reverse(piece) + ack == ack;
    } else {
      SplitSkips(piece[1..], rest, chr, [piece[0]] + ack);
      assert (piece + rest)[1..] == piece[1..] + rest;
      assert Reverse(piece[1..]) + ([piece[0]] + ack) == Reverse(piece) + ack;
    }
  }

  /** Splitting the join of pieces without separators gives the pieces back. */
  lemma {:induction false} JoinThenSplit(pieces: seq<string>, chr: char)
    requires pieces != [] && Free(pieces, chr)
    ensures SplitNode(Join(pieces, chr), chr, "") == pieces
  {
    var piece := pieces[0];
    ReverseTwice(piece);
    assert Reverse(piece) + "" == Reverse(piece);
    if |pieces| == 1 {
      SplitSkips(piece, "", chr, "");
      assert piece + "" == piece;
    } else {
      var rest := Join(pieces[1..], chr);
      JoinThenSplit(pieces[1..], chr);
      SplitSkips(piece, [chr] + rest, chr, "");
      assert piece + [chr] + rest == piece + ([chr] + rest);
      assert ([chr] + rest)[1..] == rest;
      assert pieces == [piece] + pieces[1..];
    }
  }

  /** A name is a node name exactly when it has one '@'; its name and host are then the only two pieces. */
  lemma NodeNameHasOneAt(node: string)
    ensures IsNodeName(node) <==> Count(node, '@') == 1
    ensures IsNodeName(node) <==> exists name: string, host: string :: '@' !in name && '@' !in host && node == name + "@" + host
  {
    SplitPieces(node, '@', "");
    if IsNodeName(node) {
      var pieces := SplitNode(node, '@', "");
      SplitThenJoin(node, '@', "");
      assert Reverse("") + node == node;
      assert Join(pieces, '@') == pieces[0] + "@" + pieces[1];
      assert '@' !in pieces[0] && '@' !in pieces[1];
    }
    forall name: string, host: string | '@' !in name && '@' !in host && node == name + "@" + host
      ensures IsNodeName(node)
    {
      JoinThenSplit([name, host], '@');
      assert [name, host][1..] == [host];
    }
  }
}
