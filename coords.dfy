/**
 * Board coordinates and the "file+rank" text codec.
 * A coordinate is (x, y): x is the file index (0 = file a), y the row index with 0 = rank 8.
 */
module Coords {

  type Coord = (int, int)

  predicate WithinBounds(c: Coord)
  {
    0 <= c.0 <= 7 && 0 <= c.1 <= 7
  }

  /** A square name such as "e4": a file letter a..h followed by a rank digit 1..8. */
  predicate IsSquareName(s: string)
  {
    |s| == 2 && 'a' <= s[0] <= 'h' && '1' <= s[1] <= '8'
  }

  /**
   * The texts filerank_to_num reads without an unsigned underflow: at least two characters,
   * an ASCII first character not below 'a', and a second character not above '8'.
   */
  predicate Decodable(s: string)
  {
    |s| >= 2 && 97 <= s[0] as int < 128 && s[1] as int <= 56
  }

  /**
   * num_to_filerank: the file letter 'a' + x, then the rank digit '8' - y.
   * The requires is the range in which the unsigned arithmetic neither wraps nor underflows.
   */
  function NumToFileRank(c: Coord): (s: string)
    requires 0 <= c.0 <= 127 && 0 <= c.1 <= 56
    ensures |s| == 2
    ensures WithinBounds(c) <==> IsSquareName(s)
    ensures c == (0, 0) ==> s == "a8"
    ensures c == (7, 7) ==> s == "h1"
  {
    [(97 + c.0) as char, (56 - c.1) as char]
  }

  /** filerank_to_num: (first byte - 'a', '8' - second byte); characters after the second are ignored. */
  function FileRankToNum(s: string): (c: Coord)
    requires Decodable(s)
    ensures WithinBounds(c) <==> 'a' <= s[0] <= 'h' && '1' <= s[1] <= '8'
    ensures 0 <= c.0 <= 30 && 0 <= c.1 <= 56
  {
    (s[0] as int - 97, 56 - s[1] as int)
  }

  lemma NumToFileRankRoundTrip(c: Coord)
    requires WithinBounds(c)
    ensures Decodable(NumToFileRank(c))
    ensures FileRankToNum(NumToFileRank(c)) == c
  {
  }

  lemma FileRankToNumRoundTrip(s: string)
    requires IsSquareName(s)
    ensures Decodable(s) && WithinBounds(FileRankToNum(s))
    ensures NumToFileRank(FileRankToNum(s)) == s
  {
    var t := NumToFileRank(FileRankToNum(s));
    assert t[0] == s[0] && t[1] == s[1];
  }
}
