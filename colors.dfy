/** ANSI colour codes and the wrapper that colours a piece of output. */
module Colors {
  const ColorReset: string := "\U{1B}[0m"
  const ColorRed: string := "\U{1B}[31m"
  const ColorGreen: string := "\U{1B}[32m"
  const ColorYellow: string := "\U{1B}[33m"
  const ColorBlue: string := "\U{1B}[34m"
  const ColorPurple: string := "\U{1B}[35m"
  const ColorCyan: string := "\U{1B}[36m"
  const ColorWhite: string := "\U{1B}[37m"

  /** The text between the colour code and the reset code. */
  function Colorize(s: string, color: string): (r: string)
    ensures |r| == |color| + |s| + |ColorReset|
    ensures r[..|color|] == color
    ensures r[|color|..|color| + |s|] == s
    ensures r[|color| + |s|..] == ColorReset
  {
    color + s + ColorReset
  }

  /** Stripping the colour code and the reset code gives back the text. */
  lemma ColorizeIsInjective(s: string, t: string, color: string)
    requires Colorize(s, color) == Colorize(t, color)
    ensures s == t
  {
    var r := Colorize(s, color);
    assert s == r[|color|..|color| + |s|];
  }
}
