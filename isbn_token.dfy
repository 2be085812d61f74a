/** The ISBN token that the scanner takes from a decoded barcode payload:
    `rawValue.split(" ")[0]`, the text before the first space character.
    Only the single character ' ' separates; tabs and other whitespace stay
    in the token, and no EAN-13 check digit is validated. */
module IsbnToken {

  const Space: char := ' '

  /** JavaScript's `s.split(" ")`: the pieces of `s` between single spaces,
      in order. There is always at least one piece. */
  function SplitOnSpace(s: string): (pieces: seq<string>)
    ensures |pieces| >= 1
    decreases |s|
  {
    if s == [] then [""]
    else
      var rest := SplitOnSpace(s[1..]);
      if s[0] == Space then [""] + rest
      else [[s[0]] + rest[0]] + rest[1..]
  }

  /** `pieces.join(" ")`, the inverse of SplitOnSpace. */
  function JoinWithSpace(pieces: seq<string>): string
    requires |pieces| >= 1
    decreases |pieces|
  {
    if |pieces| == 1 then pieces[0]
    else pieces[0] + [Space] + JoinWithSpace(pieces[1..])
  }

  /** The payload is exactly its pieces glued back together with single
      spaces, so splitting loses nothing. */
  lemma {:induction false} JoinSplit(s: string)
    ensures JoinWithSpace(SplitOnSpace(s)) == s
    decreases |s|
  {
    if s != [] {
      var rest := SplitOnSpace(s[1..]);
      JoinSplit(s[1..]);
      if s[0] == Space {
        assert SplitOnSpace(s)[1..] == rest;
      } else {
        var pieces := SplitOnSpace(s);
        assert pieces[1..] == rest[1..];
        if |rest| == 1 {
          assert pieces == [[s[0]] + rest[0]];
        } else {
          assert JoinWithSpace(rest) == rest[0] + [Space] + JoinWithSpace(rest[1..]);
          assert JoinWithSpace(pieces) == [s[0]] + rest[0] + [Space] + JoinWithSpace(rest[1..]);
        }
        assert s == [s[0]] + s[1..];
      }
    }
  }

  /** No piece of a split contains the separator. */
  lemma {:induction false} PiecesHaveNoSpace(s: string)
    ensures forall i :: 0 <= i < |SplitOnSpace(s)| ==> Space !in SplitOnSpace(s)[i]
    decreases |s|
  {
    if s != [] {
      PiecesHaveNoSpace(s[1..]);
      var rest := SplitOnSpace(s[1..]);
      if s[0] != Space {
        var pieces := SplitOnSpace(s);
        forall i | 0 <= i < |pieces| ensures Space !in pieces[i] {
          if i == 0 {
            assert pieces[0] == [s[0]] + rest[0];
          } else {
            assert pieces[i] == rest[i];
          }
        }
      }
    }
  }

  /** The first piece is the prefix of `s` that stops at the first space,
      or runs to the end of `s` when there is none. */
  lemma {:induction false} FirstPieceIsPrefix(s: string)
    ensures SplitOnSpace(s)[0] <= s
    ensures Space !in SplitOnSpace(s)[0]
    ensures |SplitOnSpace(s)[0]| == |s| || s[|SplitOnSpace(s)[0]|] == Space
    decreases |s|
  {
    if s != [] && s[0] != Space {
      FirstPieceIsPrefix(s[1..]);
      var rest := SplitOnSpace(s[1..]);
      assert SplitOnSpace(s)[0] == [s[0]] + rest[0];
      assert s == [s[0]] + s[1..];
    }
  }

  /** The token read from a barcode payload: `rawValue.split(" ")[0]`.
      It is a prefix of the payload, holds no space, and ends either where
      the payload ends or right before a space. */
  function Token(rawValue: string): (isbn: string)
    ensures isbn <= rawValue
    ensures Space !in isbn
    ensures |isbn| == |rawValue| || rawValue[|isbn|] == Space
  {
    FirstPieceIsPrefix(rawValue);
    SplitOnSpace(rawValue)[0]
  }

  /** Token is the ONLY prefix with the three properties above: a prefix
      without spaces that ends at the end of the payload or at a space. */
  lemma TokenCharacterization(rawValue: string, p: string)
    ensures Token(rawValue) == p <==>
              p <= rawValue && Space !in p && (|p| == |rawValue| || rawValue[|p|] == Space)
  {
    var t := Token(rawValue);
    if p <= rawValue && Space !in p && (|p| == |rawValue| || rawValue[|p|] == Space) {
      assert t == rawValue[..|t|] && p == rawValue[..|p|];
    }
  }

  /** A payload without a space is its own token. */
  lemma TokenOfSpacelessPayload(rawValue: string)
    requires Space !in rawValue
    ensures Token(rawValue) == rawValue
  {
    TokenCharacterization(rawValue, rawValue);
  }

  /** Extracting twice gives what extracting once gives. */
  lemma TokenIdempotent(rawValue: string)
    ensures Token(Token(rawValue)) == Token(rawValue)
  {
    TokenOfSpacelessPayload(Token(rawValue));
  }

  /** A space-free code followed by a space and any suffix yields the code. */
  lemma TokenDropsSuffix(code: string, suffix: string)
    requires Space !in code
    ensures Token(code + [Space] + suffix) == code
  {
    var raw := code + [Space] + suffix;
    assert raw[|code|] == Space;
    assert code <= raw;
    TokenCharacterization(raw, code);
  }

  /** Payloads with and without an add-on after a space: the add-on is
      dropped, a bare code is unchanged, and a tab does not split. */
  lemma TokenExamples()
    ensures Token("9780316769488 extra") == "9780316769488"
    ensures Token("9780143127741 93000") == "9780143127741"
    ensures Token("9780143127741") == "9780143127741"
    ensures Token("978\t0143") == "978\t0143"
  {
    TokenDropsSuffix("9780316769488", "extra");
    assert "9780316769488 extra" == "9780316769488" + [Space] + "extra";
    TokenDropsSuffix("9780143127741", "93000");
    assert "9780143127741 93000" == "9780143127741" + [Space] + "93000";
    TokenOfSpacelessPayload("9780143127741");
    TokenOfSpacelessPayload("978\t0143");
  }
}
