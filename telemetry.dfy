/**
 * Decoding of the angle telemetry the firmware prints, one reading per line,
 * optionally labelled "Angle:". A line that does not parse as a number is
 * discarded and leaves the latest angle as it was.
 *
 * The number parser (Python's float()) is not modelled: it
 * is a parameter `parse`, a partial function from text to a real.
 */
module Telemetry {
  import opened Wrappers

  /** The label that may precede the number in a telemetry line. */
  const AngleLabel: string := "Angle:"

  /** The characters Python's str.strip() removes: those str.isspace() calls whitespace. */
  predicate IsSpace(c: char) {
    || '\t' <= c <= '\r'              // tab, line feed, vertical tab, form feed, carriage return
    || '\U{1C}' <= c <= ' '            // the four information separators and space
    || c == '\U{85}' || c == '\U{A0}'  // next line, no-break space
    || c == '\U{1680}'
    || '\U{2000}' <= c <= '\U{200A}'  // the typographic spaces
    || c == '\U{2028}' || c == '\U{2029}' || c == '\U{202F}' || c == '\U{205F}' || c == '\U{3000}'
  }

  /** Every character of s from lo up to hi is whitespace. */
  predicate SpaceBetween(s: string, lo: int, hi: int)
    requires 0 <= lo && hi <= |s|
  {
    forall k :: lo <= k < hi ==> IsSpace(s[k])
  }

  /** s[i..j] is what is left of s once its leading and trailing whitespace is gone. */
  predicate StripWindow(s: string, i: int, j: int) {
    && 0 <= i <= j <= |s|
    && SpaceBetween(s, 0, i) && SpaceBetween(s, j, |s|)
    && (i < j ==> !IsSpace(s[i]) && !IsSpace(s[j - 1]))
  }

  /** r is s with its leading and trailing whitespace removed, and nothing else. */
  ghost predicate IsStripOf(s: string, r: string) {
    exists i, j :: StripWindow(s, i, j) && r == s[i..j]
  }

  /** s without its leading whitespace. */
  function TrimStart(s: string): (r: string)
    ensures |r| <= |s| && r == s[|s| - |r|..]
    ensures r != [] ==> !IsSpace(r[0])
  {
    if s != [] && IsSpace(s[0]) then TrimStart(s[1..]) else s
  }

  /** s without its trailing whitespace. */
  function TrimEnd(s: string): (r: string)
    ensures |r| <= |s| && r == s[..|r|]
    ensures r != [] ==> !IsSpace(r[|r| - 1])
  {
    if s != [] && IsSpace(s[|s| - 1]) then TrimEnd(s[..|s| - 1]) else s
  }

  /** Python's str.strip() with no argument. */
  function Strip(s: string): (r: string)
    ensures |r| <= |s|
    ensures r != [] ==> !IsSpace(r[0]) && !IsSpace(r[|r| - 1])
  {
    TrimEnd(TrimStart(s))
  }

  predicate StartsWith(s: string, prefix: string) {
    |prefix| <= |s| && s[..|prefix|] == prefix
  }

  /** p appears in s at index i. */
  predicate OccursAt(p: string, s: string, i: int) {
    0 <= i && i + |p| <= |s| && s[i..i + |p|] == p
  }

  /** p appears somewhere in s. */
  predicate Occurs(p: string, s: string) {
    exists i | 0 <= i <= |s| :: OccursAt(p, s, i)
  }

  /**
   * Python's s.replace(p, ""): every occurrence of p, found left to right
   * without overlap, is deleted in a single pass. Deleting can make a new
   * occurrence out of the text around it ("AAngle:ngle:" gives "Angle:"),
   * so the result is not "s with no p left"; RemoveAllAtFirst states the
   * pass by its first occurrence instead.
   */
  function RemoveAll(s: string, p: string): (r: string)
    requires p != []
    ensures |r| <= |s|
    decreases |s|
  {
    if StartsWith(s, p) then RemoveAll(s[|p|..], p)
    else if s == [] then []
    else [s[0]] + RemoveAll(s[1..], p)
  }

  /** The text a telemetry line leaves for the number parser. */
  function CleanFrame(line: string): (r: string)
    ensures r != [] ==> !IsSpace(r[0]) && !IsSpace(r[|r| - 1])
    ensures |r| <= |line|
  {
    var response := Strip(line);
    if StartsWith(response, AngleLabel) then Strip(RemoveAll(response, AngleLabel))
    else response
  }

  /**
   * The angle a telemetry line carries, if it parses: an unlabelled line is
   * parsed stripped, and a labelled one whose rest holds no further label is
   * parsed as that rest, stripped.
   */
  function DecodeFrame(line: string, parse: string -> Option<real>): (r: Option<real>)
    ensures !StartsWith(Strip(line), AngleLabel) ==> r == parse(Strip(line))
    ensures StartsWith(Strip(line), AngleLabel) && !Occurs(AngleLabel, Strip(line)[|AngleLabel|..])
            ==> r == parse(Strip(Strip(line)[|AngleLabel|..]))
  {
    var s := Strip(line);
    if StartsWith(s, AngleLabel) && !Occurs(AngleLabel, s[|AngleLabel|..]) then
      assert s == AngleLabel + s[|AngleLabel|..];
      LabelledFrame(line, s[|AngleLabel|..]);
      parse(CleanFrame(line))
    else
      parse(CleanFrame(line))
  }

  /** What decoding each frame gives, in arrival order. */
  function Outcomes(frames: seq<string>, parse: string -> Option<real>): (r: seq<Option<real>>)
    ensures |r| == |frames|
  {
    if frames == [] then []
    else Outcomes(frames[..|frames| - 1], parse) + [DecodeFrame(frames[|frames| - 1], parse)]
  }

  /** The angle shown after the outcomes, starting from angle: the last value that parsed, if any. */
  function Latest(angle: real, outcomes: seq<Option<real>>): real {
    if outcomes == [] then angle
    else
      match outcomes[|outcomes| - 1]
      case Some(a) => a
      case None => Latest(angle, outcomes[..|outcomes| - 1])
  }

  /** How many outcomes carry a value. */
  function CountSome(outcomes: seq<Option<real>>): nat {
    if outcomes == [] then 0
    else CountSome(outcomes[..|outcomes| - 1]) + (if outcomes[|outcomes| - 1].Some? then 1 else 0)
  }

  /** The latest angle after the frames arrive in order, starting from angle. */
  function LatestAngle(angle: real, frames: seq<string>, parse: string -> Option<real>): real {
    Latest(angle, Outcomes(frames, parse))
  }

  /** How many of the frames parse, that is, how many updates of the angle they cause. */
  function CountDecoded(frames: seq<string>, parse: string -> Option<real>): nat {
    CountSome(Outcomes(frames, parse))
  }

  // ---------------------------------------------------------------------
  // Lemmas

  /** TrimStart removes only whitespace. */
  lemma {:induction false} TrimStartRemovesSpace(s: string)
    ensures SpaceBetween(s, 0, |s| - |TrimStart(s)|)
  {
    if s != [] && IsSpace(s[0]) {
      TrimStartRemovesSpace(s[1..]);
      assert forall k :: 1 <= k < |s| - |TrimStart(s)| ==> s[k] == s[1..][k - 1];
    }
  }

  /** TrimEnd removes only whitespace. */
  lemma {:induction false} TrimEndRemovesSpace(s: string)
    ensures SpaceBetween(s, |TrimEnd(s)|, |s|)
  {
    if s != [] && IsSpace(s[|s| - 1]) {
      TrimEndRemovesSpace(s[..|s| - 1]);
      assert forall k :: |TrimEnd(s)| <= k < |s| - 1 ==> s[k] == s[..|s| - 1][k];
    }
  }

  /** Strip meets its definition: it cuts whitespace off both ends and nothing more. */
  lemma StripMeetsDefinition(s: string)
    ensures IsStripOf(s, Strip(s))
  {
    var t := TrimStart(s);
    var r := TrimEnd(t);
    var i := |s| - |t|;
    TrimStartRemovesSpace(s);
    TrimEndRemovesSpace(t);
    SpaceInSuffix(s, i, |r|);
    assert r == s[i..i + |r|];
    assert StripWindow(s, i, i + |r|);
  }

  /** Whitespace at the end of a suffix of s is whitespace at the end of s. */
  lemma SpaceInSuffix(s: string, i: int, m: int)
    requires 0 <= i <= |s| && 0 <= m <= |s| - i
    requires SpaceBetween(s[i..], m, |s| - i)
    ensures SpaceBetween(s, i + m, |s|)
  {
    assert forall k :: i + m <= k < |s| ==> s[k] == s[i..][k - i];
  }

  /** Two strip windows of one text are the same window. */
  lemma StripWindowUnique(s: string, i: int, j: int, i': int, j': int)
    requires StripWindow(s, i, j) && StripWindow(s, i', j')
    ensures i == j ==> i' == j'
    ensures i < j ==> i == i' && j == j'
  {
  }

  /** Strip has a single possible result. */
  lemma StripIsUnique(s: string, r: string)
    requires IsStripOf(s, r)
    ensures r == Strip(s)
  {
    StripMeetsDefinition(s);
    var i, j :| StripWindow(s, i, j) && r == s[i..j];
    var i', j' :| StripWindow(s, i', j') && Strip(s) == s[i'..j'];
    StripWindowUnique(s, i, j, i', j');
  }

  /** Stripping twice is stripping once. */
  lemma StripIdempotent(s: string)
    ensures Strip(Strip(s)) == Strip(s)
  {
    var r := Strip(s);
    assert StripWindow(r, 0, |r|) && r == r[0..|r|];
    StripIsUnique(r, r);
  }

  /** Removing p from a text that holds no p leaves it as it is. */
  lemma {:induction false} RemoveAllAbsent(s: string, p: string)
    requires p != [] && !Occurs(p, s)
    ensures RemoveAll(s, p) == s
    decreases |s|
  {
    if s != [] {
      assert !StartsWith(s, p) by {
        if StartsWith(s, p) { assert OccursAt(p, s, 0); }
      }
      assert !Occurs(p, s[1..]) by {
        if Occurs(p, s[1..]) {
          var i :| 0 <= i <= |s| - 1 && OccursAt(p, s[1..], i);
          assert 0 <= i && i + |p| <= |s| - 1;
          assert s[1..][i..i + |p|] == s[i + 1..i + 1 + |p|];
          assert OccursAt(p, s, i + 1);
        }
      }
      RemoveAllAbsent(s[1..], p);
      assert s == [s[0]] + s[1..];
    }
  }

  /**
   * A line that reads "Angle:" followed by a number text that holds no
   * further label decodes to that number text, stripped.
   */
  lemma LabelledFrame(line: string, x: string)
    requires Strip(line) == AngleLabel + x
    requires !Occurs(AngleLabel, x)
    ensures CleanFrame(line) == Strip(x)
  {
    var response := AngleLabel + x;
    assert StartsWith(response, AngleLabel);
    assert response[|AngleLabel|..] == x;
    RemoveAllAbsent(x, AngleLabel);
  }

  /** A line that does not start with the label is only stripped. */
  lemma UnlabelledFrame(line: string)
    requires !StartsWith(Strip(line), AngleLabel)
    ensures CleanFrame(line) == Strip(line)
  {
  }

  /** A text that does not start with p keeps its first character. */
  lemma RemoveAllKeepsChar(c: char, s: string, p: string)
    requires p != [] && c != p[0]
    ensures RemoveAll([c] + s, p) == [c] + RemoveAll(s, p)
  {
    assert ([c] + s)[1..] == s;
  }

  /** A leading p is deleted. */
  lemma RemoveAllDropsLeading(s: string, p: string)
    requires p != []
    ensures RemoveAll(p + s, p) == RemoveAll(s, p)
  {
    assert (p + s)[..|p|] == p && (p + s)[|p|..] == s;
  }

  /**
   * The pass by its first occurrence: the text before the first p is kept,
   * that p is deleted, and the pass goes on after it.
   */
  lemma {:induction false} RemoveAllAtFirst(u: string, s: string, p: string)
    requires p != []
    requires forall i :: 0 <= i < |u| ==> !OccursAt(p, u + p + s, i)
    ensures RemoveAll(u + p + s, p) == u + RemoveAll(s, p)
  {
    if u == [] {
      assert u + p + s == p + s;
      RemoveAllDropsLeading(s, p);
    } else {
      var t, rest := u + p + s, u[1..] + p + s;
      assert !OccursAt(p, t, 0);
      assert t == [u[0]] + rest;
      NoOccurrenceInTail(u[0], rest, p, |u| - 1);
      RemoveAllAtFirst(u[1..], s, p);
      assert u == [u[0]] + u[1..];
    }
  }

  /** Positions of c followed by rest where p does not occur, shifted by one, are positions of rest where p does not occur. */
  lemma NoOccurrenceInTail(c: char, rest: string, p: string, m: nat)
    requires forall i :: 0 <= i < m + 1 ==> !OccursAt(p, [c] + rest, i)
    ensures forall i :: 0 <= i < m ==> !OccursAt(p, rest, i)
  {
    forall i | 0 <= i < m ensures !OccursAt(p, rest, i) {
      assert !OccursAt(p, [c] + rest, i + 1);
      if i + |p| <= |rest| {
        assert ([c] + rest)[i + 1..i + 1 + |p|] == rest[i..i + |p|];
      }
    }
  }

  /** A prefix none of whose characters starts p is kept as it is. */
  lemma {:induction false} RemoveAllKeepsPrefix(u: string, s: string, p: string)
    requires p != []
    requires forall k :: 0 <= k < |u| ==> u[k] != p[0]
    ensures RemoveAll(u + s, p) == u + RemoveAll(s, p)
  {
    if u == [] {
      assert u + s == s;
    } else {
      RemoveAllKeepsPrefix(u[1..], s, p);
      RemoveAllKeepsChar(u[0], u[1..] + s, p);
      assert u + s == [u[0]] + (u[1..] + s);
      assert u == [u[0]] + u[1..];
    }
  }

  /**
   * Every occurrence of the label is removed, not only the leading one:
   * "Angle:", whitespace, one character c, a second "Angle:" and a tail
   * holding no label decodes to c followed by the tail ("Angle: 1Angle:2"
   * gives "12").
   */
  lemma InnerLabelRemoved(pad: string, c: char, tail: string)
    requires SpaceBetween(pad, 0, |pad|)
    requires !IsSpace(c) && c != AngleLabel[0]
    requires tail != [] && !IsSpace(tail[|tail| - 1]) && !Occurs(AngleLabel, tail)
    ensures CleanFrame(AngleLabel + pad + [c] + AngleLabel + tail) == [c] + tail
  {
    var line := AngleLabel + pad + [c] + AngleLabel + tail;
    RegroupTwoLabels(pad, c, tail);
    assert line[0] == 'A' && line[|line| - 1] == tail[|tail| - 1];
    LabelledCleanFrame(line, (pad + [c]) + (AngleLabel + tail));
    SpaceThenCharThenLabel(pad, c, tail);
    StripSpaceThenChar(pad, c, tail);
  }

  /** A line that is its own strip and starts with the label is cleaned by deleting every label and stripping. */
  lemma LabelledCleanFrame(line: string, x: string)
    requires line == AngleLabel + x
    requires !IsSpace(line[0]) && !IsSpace(line[|line| - 1])
    ensures CleanFrame(line) == Strip(RemoveAll(line, AngleLabel))
  {
    StripUnchanged(line);
    assert line[..|AngleLabel|] == AngleLabel;
  }

  lemma RegroupTwoLabels(pad: string, c: char, tail: string)
    ensures AngleLabel + pad + [c] + AngleLabel + tail
         == AngleLabel + ((pad + [c]) + (AngleLabel + tail))
  {
  }

  lemma SpaceThenCharThenLabel(pad: string, c: char, tail: string)
    requires SpaceBetween(pad, 0, |pad|) && c != AngleLabel[0] && !Occurs(AngleLabel, tail)
    ensures RemoveAll(AngleLabel + ((pad + [c]) + (AngleLabel + tail)), AngleLabel) == (pad + [c]) + tail
  {
    SpaceThenCharAvoidsLabel(pad, c);
    RemoveBothLabels(AngleLabel, pad + [c], tail);
  }

  lemma StripSpaceThenChar(pad: string, c: char, tail: string)
    requires SpaceBetween(pad, 0, |pad|) && !IsSpace(c)
    requires tail != [] ==> !IsSpace(tail[|tail| - 1])
    ensures Strip((pad + [c]) + tail) == [c] + tail
  {
    assert (pad + [c]) + tail == pad + ([c] + tail);
    StripLeadingSpace(pad, [c] + tail);
  }

  lemma SpaceThenCharAvoidsLabel(pad: string, c: char)
    requires SpaceBetween(pad, 0, |pad|) && c != AngleLabel[0]
    ensures forall k :: 0 <= k < |pad + [c]| ==> (pad + [c])[k] != AngleLabel[0]
  {
    forall k | 0 <= k < |pad + [c]| ensures (pad + [c])[k] != AngleLabel[0] {
      if k < |pad| {
        assert (pad + [c])[k] == pad[k] && IsSpace(pad[k]);
      }
    }
  }

  /** Deleting p from p, a prefix u that cannot start p, p again and a tail holding no p leaves u and the tail. */
  lemma RemoveBothLabels(p: string, u: string, tail: string)
    requires p != [] && !Occurs(p, tail)
    requires forall k :: 0 <= k < |u| ==> u[k] != p[0]
    ensures RemoveAll(p + (u + (p + tail)), p) == u + tail
  {
    LabelThenPrefix(p, u, p + tail);
    LabelThenTail(p, tail);
  }

  lemma LabelThenPrefix(p: string, u: string, s: string)
    requires p != []
    requires forall k :: 0 <= k < |u| ==> u[k] != p[0]
    ensures RemoveAll(p + (u + s), p) == u + RemoveAll(s, p)
  {
    RemoveAllDropsLeading(u + s, p);
    RemoveAllKeepsPrefix(u, s, p);
  }

  lemma LabelThenTail(p: string, tail: string)
    requires p != [] && !Occurs(p, tail)
    ensures RemoveAll(p + tail, p) == tail
  {
    RemoveAllDropsLeading(tail, p);
    RemoveAllAbsent(tail, p);
  }

  /** A text whose first and last characters are not whitespace is its own strip. */
  lemma StripUnchanged(s: string)
    requires s != [] ==> !IsSpace(s[0]) && !IsSpace(s[|s| - 1])
    ensures Strip(s) == s
  {
    assert StripWindow(s, 0, |s|) && s == s[0..|s|];
    StripIsUnique(s, s);
  }

  /** The i-th outcome is the decoding of the i-th frame. */
  lemma {:induction false} OutcomeAt(frames: seq<string>, parse: string -> Option<real>, i: nat)
    requires i < |frames|
    ensures Outcomes(frames, parse)[i] == DecodeFrame(frames[i], parse)
  {
    if i < |frames| - 1 {
      OutcomeAt(frames[..|frames| - 1], parse, i);
    }
  }

  /** One more frame: the stream functions take one step on its outcome. */
  lemma OutcomesStep(angle: real, frames: seq<string>, parse: string -> Option<real>, i: nat)
    requires i < |frames|
    ensures LatestAngle(angle, frames[..i + 1], parse)
         == match DecodeFrame(frames[i], parse)
            case Some(a) => a
            case None => LatestAngle(angle, frames[..i], parse)
    ensures CountDecoded(frames[..i + 1], parse)
         == CountDecoded(frames[..i], parse) + (if DecodeFrame(frames[i], parse).Some? then 1 else 0)
  {
    var o := Outcomes(frames[..i + 1], parse);
    assert frames[..i + 1][..i] == frames[..i];
    assert o[..i] == Outcomes(frames[..i], parse);
  }

  /** With no outcome that carries a value, the angle is the one before and nothing is counted. */
  lemma {:induction false} NoneKeepsAngle(angle: real, outcomes: seq<Option<real>>)
    requires forall i :: 0 <= i < |outcomes| ==> outcomes[i].None?
    ensures Latest(angle, outcomes) == angle
    ensures CountSome(outcomes) == 0
  {
    if outcomes != [] {
      NoneKeepsAngle(angle, outcomes[..|outcomes| - 1]);
    }
  }

  /** With no frame that parses, the latest angle is the one before. */
  lemma NoDecodeKeepsAngle(angle: real, frames: seq<string>, parse: string -> Option<real>)
    requires forall i :: 0 <= i < |frames| ==> DecodeFrame(frames[i], parse).None?
    ensures LatestAngle(angle, frames, parse) == angle
    ensures CountDecoded(frames, parse) == 0
  {
    var o := Outcomes(frames, parse);
    forall i | 0 <= i < |o| ensures o[i].None? {
      OutcomeAt(frames, parse, i);
    }
    NoneKeepsAngle(angle, o);
  }

  /** The angle is the value of the last outcome that carries one. */
  lemma {:induction false} LatestIsLastSome(angle: real, outcomes: seq<Option<real>>, k: nat)
    requires k < |outcomes| && outcomes[k].Some?
    requires forall i :: k < i < |outcomes| ==> outcomes[i].None?
    ensures Latest(angle, outcomes) == outcomes[k].value
  {
    if k < |outcomes| - 1 {
      LatestIsLastSome(angle, outcomes[..|outcomes| - 1], k);
    }
  }

  /** The latest angle is the value of the last frame that parses. */
  lemma LatestIsLastDecoded(angle: real, frames: seq<string>, parse: string -> Option<real>, k: nat)
    requires k < |frames| && DecodeFrame(frames[k], parse).Some?
    requires forall i :: k < i < |frames| ==> DecodeFrame(frames[i], parse).None?
    ensures LatestAngle(angle, frames, parse) == DecodeFrame(frames[k], parse).value
  {
    var o := Outcomes(frames, parse);
    forall i | k < i < |o| ensures o[i].None? {
      OutcomeAt(frames, parse, i);
    }
    OutcomeAt(frames, parse, k);
    LatestIsLastSome(angle, o, k);
  }

  /** A line with no surrounding whitespace that does not start with the label goes to the parser whole. */
  lemma PlainFrame(line: string)
    requires line != [] ==> !IsSpace(line[0]) && !IsSpace(line[|line| - 1])
    requires !StartsWith(line, AngleLabel)
    ensures CleanFrame(line) == line
  {
    StripUnchanged(line);
  }

  /** Stripping whitespace followed by a text without surrounding whitespace leaves that text. */
  lemma StripLeadingSpace(pad: string, x: string)
    requires SpaceBetween(pad, 0, |pad|)
    requires x != [] ==> !IsSpace(x[0]) && !IsSpace(x[|x| - 1])
    ensures Strip(pad + x) == x
  {
    var rest := pad + x;
    assert forall k :: 0 <= k < |pad| ==> rest[k] == pad[k];
    if x == [] {
      assert StripWindow(rest, |rest|, |rest|);
    } else {
      assert StripWindow(rest, |pad|, |rest|);
    }
    assert rest[|pad|..|rest|] == x;
    StripIsUnique(rest, x);
  }

  /** "Angle:", then whitespace, then a number text holding no label: the number text. */
  lemma LabelledNumber(pad: string, x: string)
    requires SpaceBetween(pad, 0, |pad|)
    requires x != [] && !IsSpace(x[0]) && !IsSpace(x[|x| - 1]) && !Occurs(AngleLabel, x)
    ensures CleanFrame(AngleLabel + pad + x) == x
  {
    var line := AngleLabel + (pad + x);
    assert AngleLabel + pad + x == line;
    assert line[0] == 'A' && line[|line| - 1] == x[|x| - 1];
    LabelledCleanFrame(line, pad + x);
    RemoveAllDropsLeading(pad + x, AngleLabel);
    SpaceAvoidsLabel(pad);
    RemoveAllKeepsPrefix(pad, x, AngleLabel);
    RemoveAllAbsent(x, AngleLabel);
    StripLeadingSpace(pad, x);
  }

  /** No whitespace character starts the label. */
  lemma SpaceAvoidsLabel(pad: string)
    requires SpaceBetween(pad, 0, |pad|)
    ensures forall k :: 0 <= k < |pad| ==> pad[k] != AngleLabel[0]
  {
    forall k | 0 <= k < |pad| ensures pad[k] != AngleLabel[0] {
      assert IsSpace(pad[k]);
    }
  }

  /** Four outcomes of which the first and third carry a value: two updates, and the third value. */
  lemma TwoOfFour(angle: real, outcomes: seq<Option<real>>)
    requires |outcomes| == 4
    requires outcomes[0].Some? && outcomes[1].None? && outcomes[2].Some? && outcomes[3].None?
    ensures Latest(angle, outcomes) == outcomes[2].value
    ensures CountSome(outcomes) == 2
  {
    var o3, o2, o1 := outcomes[..3], outcomes[..2], outcomes[..1];
    assert o3[..2] == o2 && o2[..1] == o1 && o1[..0] == [];
    assert CountSome(o1) == 1;
    assert CountSome(o2) == 1;
    assert CountSome(o3) == 2;
  }

  /** "Angle: " and a number text holding no label decodes to that number text. */
  lemma DecodeSpacedReading(parse: string -> Option<real>, n: string)
    requires n != [] && !IsSpace(n[0]) && !IsSpace(n[|n| - 1]) && !Occurs(AngleLabel, n)
    ensures DecodeFrame(AngleLabel + " " + n, parse) == parse(n)
  {
    LabelledNumber(" ", n);
  }

  /** "Angle:" directly followed by a number text holding no label decodes to that number text. */
  lemma DecodeTightReading(parse: string -> Option<real>, n: string)
    requires n != [] && !IsSpace(n[0]) && !IsSpace(n[|n| - 1]) && !Occurs(AngleLabel, n)
    ensures DecodeFrame(AngleLabel + n, parse) == parse(n)
  {
    LabelledNumber([], n);
    assert AngleLabel + [] + n == AngleLabel + n;
  }

  /**
   * A labelled reading with a space, a line of junk, a labelled reading
   * without a space and an empty line (the firmware's "Angle: 12.5",
   * "garbage", "Angle:-3.0", "") cause exactly two updates and leave the
   * second reading, when the parser accepts the two number texts, the junk
   * line does not decode and the parser rejects the empty text.
   */
  lemma MixedStream(angle: real, parse: string -> Option<real>, n1: string, junk: string, n2: string)
    requires n1 != [] && !IsSpace(n1[0]) && !IsSpace(n1[|n1| - 1]) && !Occurs(AngleLabel, n1)
    requires n2 != [] && !IsSpace(n2[0]) && !IsSpace(n2[|n2| - 1]) && !Occurs(AngleLabel, n2)
    requires DecodeFrame(junk, parse) == None
    requires parse(n1).Some? && parse(n2).Some? && parse([]) == None
    ensures var frames := [AngleLabel + " " + n1, junk, AngleLabel + n2, []];
            && LatestAngle(angle, frames, parse) == parse(n2).value
            && CountDecoded(frames, parse) == 2
  {
    var frames := [AngleLabel + " " + n1, junk, AngleLabel + n2, []];
    DecodeSpacedReading(parse, n1);
    DecodeTightReading(parse, n2);
    PlainFrame([]);
    OutcomeAt(frames, parse, 0);
    OutcomeAt(frames, parse, 1);
    OutcomeAt(frames, parse, 2);
    OutcomeAt(frames, parse, 3);
    TwoOfFour(angle, Outcomes(frames, parse));
  }
}
