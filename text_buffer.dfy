/**
 * The runtime's `StringBuilder` as far as the generators use it: append a
 * line (text followed by the platform's line terminator), delete a range
 * in place, read the text back.
 */
module TextBuffer {

  /** `Environment.NewLine`: "\n" on Unix-like systems, "\r\n" on Windows. */
  datatype NewLine = Lf | CrLf {
    function Text(): (r: string)
      ensures 1 <= |r| <= 2
    {
      if Lf? then "\n" else "\r\n"
    }
  }

  /** Each line followed by the terminator: what a run of `AppendLine` calls adds. */
  function Lines(lines: seq<string>, nl: NewLine): string {
    if lines == [] then "" else Lines(lines[..|lines| - 1], nl) + lines[|lines| - 1] + nl.Text()
  }

  lemma {:induction false} LinesAppend(a: seq<string>, b: seq<string>, nl: NewLine)
    ensures Lines(a + b, nl) == Lines(a, nl) + Lines(b, nl)
    decreases |b|
  {
    if b != [] {
      var b' := b[..|b| - 1];
      assert (a + b)[..|a + b| - 1] == a + b';
      LinesAppend(a, b', nl);
    } else {
      assert a + b == a;
    }
  }

  lemma LinesOne(line: string, nl: NewLine)
    ensures Lines([line], nl) == line + nl.Text()
  {
    assert [line][..0] == [];
  }

  /** An empty line is just the terminator. */
  lemma LinesEmptyLine(nl: NewLine)
    ensures Lines([""], nl) == nl.Text()
  {
    LinesOne("", nl);
    assert "" + nl.Text() == nl.Text();
  }

  /** Two more lines, as two `AppendLine` calls after `prefix` leave them. */
  lemma LinesSnocTwo(prefix: string, lines: seq<string>, a: string, b: string, nl: NewLine)
    ensures prefix + Lines(lines + [a, b], nl) == prefix + Lines(lines, nl) + a + nl.Text() + b + nl.Text()
  {
    assert (lines + [a, b])[..|lines| + 1] == lines + [a];
    LinesSnoc(prefix, lines, a, nl);
  }

  /** One more line, as an `AppendLine` call after `prefix` leaves it. */
  lemma LinesSnoc(prefix: string, lines: seq<string>, a: string, nl: NewLine)
    ensures prefix + Lines(lines + [a], nl) == prefix + Lines(lines, nl) + a + nl.Text()
  {
    assert (lines + [a])[..|lines|] == lines;
  }

  /** A line followed by an empty line, as `AppendLine(a)` then `AppendLine()` leave them. */
  lemma LinesSnocBlank(prefix: string, lines: seq<string>, a: string, nl: NewLine)
    ensures prefix + Lines(lines + [a, ""], nl) == prefix + Lines(lines, nl) + a + nl.Text() + nl.Text()
  {
    LinesSnocTwo(prefix, lines, a, "", nl);
    var before := prefix + Lines(lines, nl) + a + nl.Text();
    assert before + "" == before;
  }

  /** A line and an empty line at the end of the text, without a prefix. */
  lemma LinesLineAndBlank(lines: seq<string>, a: string, nl: NewLine)
    ensures Lines(lines + [a, ""], nl) == Lines(lines, nl) + a + nl.Text() + nl.Text()
  {
    var appended := lines + [a, ""];
    assert appended[..|appended| - 1] == lines + [a];
    assert (lines + [a])[..|lines|] == lines;
  }

  /** The text left after deleting `count` characters at `start`. */
  function RemoveRange(s: string, start: nat, count: nat): (r: string)
    requires start + count <= |s|
    ensures |r| == |s| - count
    ensures r[..start] == s[..start] && r[start..] == s[start + count..]
  {
    s[..start] + s[start + count..]
  }

  /** Deleting inside the second part of a text leaves the first part alone. */
  lemma RemoveRangeAfter(a: string, b: string, start: nat, count: nat)
    requires start + count <= |b|
    ensures RemoveRange(a + b, |a| + start, count) == a + RemoveRange(b, start, count)
  {
    assert (a + b)[..|a| + start] == a + b[..start];
    assert (a + b)[|a| + start + count..] == b[start + count..];
  }

  class StringBuilder {
    var content: string
    const newLine: NewLine

    constructor (newLine: NewLine)
      ensures content == "" && this.newLine == newLine
    {
      this.newLine := newLine;
      content := "";
    }

    /** `AppendLine(line)`. */
    method AppendLine(line: string)
      modifies this
      ensures content == old(content) + line + newLine.Text()
    {
      content := content + line + newLine.Text();
    }

    /** `AppendLine()`: the terminator alone. */
    method AppendEmptyLine()
      modifies this
      ensures content == old(content) + newLine.Text()
    {
      content := content + newLine.Text();
    }

    /**
     * `Remove(start, count)`: deletes exactly `count` characters at `start`
     * and keeps everything before and after. The runtime throws when the
     * range does not lie inside the text.
     */
    method Remove(start: nat, count: nat)
      requires start + count <= |content|
      modifies this
      ensures content == RemoveRange(old(content), start, count)
    {
      content := content[..start] + content[start + count..];
    }

    function ToString(): string
      reads this
    {
      content
    }
  }
}
