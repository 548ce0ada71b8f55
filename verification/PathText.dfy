// Slash-separated paths as plain text.
module PathText {
  /** strings.Join(elem, "/") */
  function JoinWith(elem: seq<string>): string {
    if elem == [] then "" else if |elem| == 1 then elem[0] else elem[0] + "/" + JoinWith(elem[1..])
  }

  /** The pieces between slashes; current is the piece read so far. */
  function Split(s: string, current: string): seq<string> {
    if s == [] then NonEmpty(current)
    else if s[0] == '/' then NonEmpty(current) + Split(s[1..], "")
    else Split(s[1..], current + [s[0]])
  }

  function NonEmpty(piece: string): seq<string> {
    if piece == "" then [] else [piece]
  }

  /** The non-empty segments of a path, in order. */
  function Segments(s: string): seq<string> {
    Split(s, "")
  }

  function SlashOf(c: char): char {
    if c == '\\' then '/' else c
  }

  function ForwardSlashes(s: string): string {
    seq(|s|, i requires 0 <= i < |s| => SlashOf(s[i]))
  }

  function TrimRightSlashes(s: string): string {
    if s != [] && s[|s|-1] == '/' then TrimRightSlashes(s[..|s|-1]) else s
  }

  /** strings.LastIndex(s, "/") */
  function LastSlash(s: string): (r: int)
    ensures -1 <= r < |s|
    ensures r >= 0 ==> s[r] == '/'
    ensures forall i :: r < i < |s| ==> s[i] != '/'
  {
    if s == [] then -1 else if s[|s|-1] == '/' then |s| - 1 else LastSlash(s[..|s|-1])
  }

  function BaseName(path: string): string {
    var normalized := TrimRightSlashes(ForwardSlashes(path));
    normalized[LastSlash(normalized)+1..]
  }
}
