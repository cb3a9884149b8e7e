/**
 * How a note body travels between the file and the editor buffer: on load
 * the body string is cut at every newline (Rust's `str::split("\n")`), on
 * save the buffer's lines are glued back with newlines (`[String]::join("\n")`).
 */
module BodyCodec {

  const Newline: char := '\n'

  /** A single line: no newline character inside. */
  predicate NewlineFree(s: string) {
    forall k :: 0 <= k < |s| ==> s[k] != Newline
  }

  /** The number of newline characters in `s`. */
  function NewlineCount(s: string): nat {
    if s == [] then 0 else (if s[0] == Newline then 1 else 0) + NewlineCount(s[1..])
  }

  /**
   * The pieces of `s` between newlines, as `s.split("\n")` yields them:
   * always at least one piece (`""` gives `[""]`), one more piece than
   * there are newlines, and no piece contains a newline.
   */
  function Split(s: string): (lines: seq<string>)
    ensures s == [] ==> lines == [""]
    ensures |lines| == NewlineCount(s) + 1
    ensures forall k :: 0 <= k < |lines| ==> NewlineFree(lines[k])
    decreases |s|
  {
    if s == [] then [""]
    else
      var rest := Split(s[1..]);
      if s[0] == Newline then [""] + rest
      else [[s[0]] + rest[0]] + rest[1..]
  }

  /**
   * The lines separated by single newlines, as `[String]::join("\n")` glues
   * them: the first line starts the result, and a newline follows it when
   * more lines come.
   */
  function Join(lines: seq<string>): (s: string)
    ensures lines != [] ==> lines[0] <= s
    ensures |lines| >= 2 ==> |s| > |lines[0]| && s[|lines[0]|] == Newline
    decreases |lines|
  {
    if |lines| == 0 then ""
    else if |lines| == 1 then lines[0]
    else lines[0] + [Newline] + Join(lines[1..])
  }

  /** Joining a line with a non-empty rest puts exactly one newline between them. */
  lemma {:induction false} JoinCons(line: string, rest: seq<string>)
    requires rest != []
    ensures Join([line] + rest) == line + [Newline] + Join(rest)
  {
    assert ([line] + rest)[1..] == rest;
  }

  /** Splitting a body and joining the pieces gives the body back, whatever it holds. */
  lemma {:induction false} JoinSplit(s: string)
    ensures Join(Split(s)) == s
    decreases |s|
  {
    if s != [] {
      var rest := Split(s[1..]);
      JoinSplit(s[1..]);
      if s[0] == Newline {
        JoinCons("", rest);
        assert Split(s) == [""] + rest;
        assert s == [Newline] + s[1..];
      } else {
        var first := [s[0]] + rest[0];
        assert Split(s) == [first] + rest[1..];
        if |rest| == 1 {
          assert [first] + rest[1..] == [first];
          assert Join(rest) == rest[0];
        } else {
          JoinCons(first, rest[1..]);
          JoinCons(rest[0], rest[1..]);
          assert [rest[0]] + rest[1..] == rest;
        }
        assert s == [s[0]] + s[1..];
      }
    }
  }

  /** A newline-free prefix sticks to the first piece of what follows it. */
  lemma {:induction false} SplitAfterLine(line: string, tail: string)
    requires NewlineFree(line)
    ensures Split(line + tail) == [line + Split(tail)[0]] + Split(tail)[1..]
    decreases |line|
  {
    if line != [] {
      assert NewlineFree(line[1..]) by {
        forall k | 0 <= k < |line[1..]| ensures line[1..][k] != Newline {
          assert line[1..][k] == line[k + 1];
        }
      }
      SplitAfterLine(line[1..], tail);
      assert (line + tail)[1..] == line[1..] + tail;
      assert (line + tail)[0] == line[0] != Newline;
      assert [line[0]] + (line[1..] + Split(tail)[0]) == line + Split(tail)[0];
    } else {
      assert line + tail == tail;
      assert line + Split(tail)[0] == Split(tail)[0];
      assert [Split(tail)[0]] + Split(tail)[1..] == Split(tail);
    }
  }

  /**
   * Joining a non-empty list of newline-free lines and splitting the result
   * gives exactly those lines back.
   */
  lemma {:induction false} SplitJoin(lines: seq<string>)
    requires |lines| >= 1
    requires forall k :: 0 <= k < |lines| ==> NewlineFree(lines[k])
    ensures Split(Join(lines)) == lines
    decreases |lines|
  {
    if |lines| == 1 {
      SplitAfterLine(lines[0], "");
      assert lines[0] + "" == lines[0];
    } else {
      var tail := Join(lines[1..]);
      SplitJoin(lines[1..]);
      assert Join(lines) == lines[0] + [Newline] + tail;
      assert lines[0] + [Newline] + tail == lines[0] + ([Newline] + tail);
      SplitAfterLine(lines[0], [Newline] + tail);
      assert ([Newline] + tail)[1..] == tail;
      assert Split([Newline] + tail) == [""] + lines[1..];
      assert lines[0] + "" == lines[0];
      assert [lines[0]] + lines[1..] == lines;
    }
  }
}
