/**
 * The command-bundle protocol of workers/worker.py. `set_cmd_line` wraps each
 * named sub-command between two `echo`s of marker lines and chains everything
 * with `&&`; `get_result_dict` splits the raw output into lines and takes, for
 * each name, the lines strictly between the first `<START name>` line and the
 * first `<END name>` line. A missing marker line makes `list.index` raise.
 */
module CommandBundle {
  import opened Wrappers
  import opened Text

  /** `cmd_dict`: (name, command) pairs in dictionary order. */
  type Bundle = seq<(string, string)>

  function Names(b: Bundle): (ks: seq<string>)
    ensures |ks| == |b| && forall i :: 0 <= i < |b| ==> ks[i] == b[i].0
  {
    seq(|b|, i requires 0 <= i < |b| => b[i].0)
  }

  function StartMarker(name: string): string { "<START " + name + ">" }
  function EndMarker(name: string): string { "<END " + name + ">" }

  /** `echo '<START k>' && v && echo '<END k>'`. */
  function Segment(name: string, command: string): string {
    "echo '" + StartMarker(name) + "' && " + command + " && echo '" + EndMarker(name) + "'"
  }

  /** The command line `set_cmd_line` builds: the segments joined by " && ", in order. */
  function Encode(b: Bundle): string {
    Join(seq(|b|, i requires 0 <= i < |b| => Segment(b[i].0, b[i].1)), " && ")
  }

  /** Adding a pair to a non-empty bundle appends " && " and its segment. */
  lemma EncodeAppend(b: Bundle, name: string, command: string)
    requires b != []
    ensures Encode(b + [(name, command)]) == Encode(b) + " && " + Segment(name, command)
  {
    var segs := seq(|b|, i requires 0 <= i < |b| => Segment(b[i].0, b[i].1));
    var b' := b + [(name, command)];
    assert seq(|b'|, i requires 0 <= i < |b'| => Segment(b'[i].0, b'[i].1)) == segs + [Segment(name, command)];
    JoinAppend(segs, [Segment(name, command)], " && ");
  }

  lemma EncodeSingle(name: string, command: string)
    ensures Encode([(name, command)]) == Segment(name, command)
  {
  }

  /** Python's `list.index`: a position holding `x`, or the ValueError case. */
  function IndexOf(lines: seq<string>, x: string): (r: Option<nat>)
    ensures r.Some? ==> r.value < |lines| && lines[r.value] == x
    ensures r.None? ==> x !in lines
    decreases |lines|
  {
    if lines == [] then None
    else if lines[0] == x then Some(0)
    else match IndexOf(lines[1..], x)
      case None => None
      case Some(i) => Some(i + 1)
  }

  /** The position found is the first one holding `x`. */
  lemma {:induction false} IndexOfFirst(lines: seq<string>, x: string)
    requires IndexOf(lines, x).Some?
    ensures forall j :: 0 <= j < IndexOf(lines, x).value ==> lines[j] != x
    decreases |lines|
  {
    if lines[0] != x {
      IndexOfFirst(lines[1..], x);
      forall j | 0 < j < IndexOf(lines, x).value ensures lines[j] != x {
        assert lines[j] == lines[1..][j - 1];
      }
    }
  }

  /** The ValueError `list.index` raises: the marker line that is not there. */
  datatype DecodeError = MissingMarker(marker: string)

  /** The text of one name: the lines strictly between its markers, joined again by line breaks. */
  function Section(lines: seq<string>, name: string): Result<string, DecodeError> {
    match IndexOf(lines, StartMarker(name))
    case None => Err(MissingMarker(StartMarker(name)))
    case Some(i1) =>
      match IndexOf(lines, EndMarker(name))
      case None => Err(MissingMarker(EndMarker(name)))
      case Some(i2) => Ok(Join(if i1 + 1 <= i2 then lines[i1 + 1..i2] else [], "\n"))
  }

  /** The loop of `get_result_dict` over the names in order; the first failing name raises. */
  function DecodeLines(lines: seq<string>, names: seq<string>): Result<map<string, string>, DecodeError>
    decreases |names|
  {
    if names == [] then Ok(map[])
    else
      match DecodeLines(lines, names[..|names| - 1])
      case Err(e) => Err(e)
      case Ok(m) =>
        match Section(lines, names[|names| - 1])
        case Err(e) => Err(e)
        case Ok(v) => Ok(m[names[|names| - 1] := v])
  }

  function Decode(raw: string, names: seq<string>): Result<map<string, string>, DecodeError> {
    DecodeLines(Split(raw, '\n'), names)
  }

  /** Both marker lines of `name` are present. */
  predicate Marked(lines: seq<string>, name: string) {
    StartMarker(name) in lines && EndMarker(name) in lines
  }

  /**
   * `e` is what `list.index` raises for the `i`-th name, all names before it
   * being marked: its start marker if absent, else its absent end marker.
   */
  predicate FirstMissing(lines: seq<string>, names: seq<string>, i: nat, e: DecodeError)
    requires i < |names|
  {
    && (forall j :: 0 <= j < i ==> Marked(lines, names[j]))
    && (|| (e == MissingMarker(StartMarker(names[i])) && StartMarker(names[i]) !in lines)
        || (e == MissingMarker(EndMarker(names[i])) && StartMarker(names[i]) in lines && EndMarker(names[i]) !in lines))
  }

  lemma SectionOk(lines: seq<string>, name: string)
    ensures Section(lines, name).Ok? <==> Marked(lines, name)
  {
  }

  /** Decoding succeeds exactly when every name has both of its marker lines. */
  lemma {:induction false} DecodeLinesOk(lines: seq<string>, names: seq<string>)
    ensures DecodeLines(lines, names).Ok? <==> forall i :: 0 <= i < |names| ==> Marked(lines, names[i])
    decreases |names|
  {
    if names != [] {
      var init := names[..|names| - 1];
      DecodeLinesOk(lines, init);
      SectionOk(lines, names[|names| - 1]);
      assert forall i :: 0 <= i < |init| ==> init[i] == names[i];
    }
  }

  /** A decoded map has exactly the bundle's names as keys, each mapped to its section. */
  lemma {:induction false} DecodeLinesValue(lines: seq<string>, names: seq<string>)
    requires DecodeLines(lines, names).Ok?
    ensures forall k :: k in DecodeLines(lines, names).value <==> k in names
    ensures forall k :: k in DecodeLines(lines, names).value ==>
              Section(lines, k) == Ok(DecodeLines(lines, names).value[k])
    decreases |names|
  {
    if names != [] {
      var init := names[..|names| - 1];
      var last := names[|names| - 1];
      assert DecodeLines(lines, init).Ok?;
      DecodeLinesValue(lines, init);
      DecodeLinesNext(lines, names, |names| - 1, DecodeLines(lines, init).value);
      assert names[..|names|] == names;
      SplitLast(names);
    }
  }

  /**
   * A failed decoding reports the first missing marker: every earlier name is
   * marked, and the reported marker is that name's start marker when it is
   * absent, else its end marker, which is then absent.
   */
  lemma {:induction false} DecodeLinesError(lines: seq<string>, names: seq<string>)
    requires DecodeLines(lines, names).Err?
    ensures exists i :: 0 <= i < |names| && FirstMissing(lines, names, i, DecodeLines(lines, names).error)
    decreases |names|
  {
    var init := names[..|names| - 1];
    var last := names[|names| - 1];
    var e := DecodeLines(lines, names).error;
    if DecodeLines(lines, init).Err? {
      DecodeLinesError(lines, init);
      var i :| 0 <= i < |init| && FirstMissing(lines, init, i, e);
      assert forall j :: 0 <= j <= i ==> names[j] == init[j];
      assert FirstMissing(lines, names, i, e);
    } else {
      DecodeLinesOk(lines, init);
      assert forall j :: 0 <= j < |init| ==> names[j] == init[j];
      assert FirstMissing(lines, names, |names| - 1, e);
    }
  }

  /** Once a prefix of the names fails to decode, the whole list fails with the same error. */
  lemma {:induction false} DecodeErrorPersists(lines: seq<string>, names: seq<string>, i: nat)
    requires 0 < i <= |names|
    requires DecodeLines(lines, names[..i]).Err?
    ensures DecodeLines(lines, names) == DecodeLines(lines, names[..i])
    decreases |names| - i
  {
    if i < |names| {
      assert names[..|names| - 1][..i] == names[..i];
      DecodeErrorPersists(lines, names[..|names| - 1], i);
    } else {
      assert names[..i] == names;
    }
  }

  /** Decoding one more name extends the decoded prefix by that name's section. */
  lemma DecodeLinesSnoc(lines: seq<string>, names: seq<string>, i: nat)
    requires i < |names|
    ensures DecodeLines(lines, names[..i + 1]) ==
              match DecodeLines(lines, names[..i])
              case Err(e) => Err(e)
              case Ok(m) =>
                match Section(lines, names[i])
                case Err(e) => Err(e)
                case Ok(v) => Ok(m[names[i] := v])
  {
    assert names[..i + 1][..i] == names[..i];
  }

  /** With both markers found, the section is the joined lines strictly between them. */
  lemma SectionFound(lines: seq<string>, name: string, i1: nat, i2: nat)
    requires IndexOf(lines, StartMarker(name)) == Some(i1) && IndexOf(lines, EndMarker(name)) == Some(i2)
    ensures Section(lines, name) == Ok(Join(if i1 + 1 <= i2 then lines[i1 + 1..i2] else [], "\n"))
  {
  }

  /** One more name after a prefix that decoded to `m`: its section joins `m`, or its error is the whole result. */
  lemma DecodeLinesNext(lines: seq<string>, names: seq<string>, i: nat, m: map<string, string>)
    requires i < |names| && DecodeLines(lines, names[..i]) == Ok(m)
    ensures Section(lines, names[i]).Ok? ==>
              DecodeLines(lines, names[..i + 1]) == Ok(m[names[i] := Section(lines, names[i]).value])
    ensures Section(lines, names[i]).Err? ==> DecodeLines(lines, names) == Err(Section(lines, names[i]).error)
  {
    DecodeLinesSnoc(lines, names, i);
    if Section(lines, names[i]).Err? {
      DecodeErrorPersists(lines, names, i + 1);
    }
  }

  // ---- Round trip -------------------------------------------------------------

  /**
   * What one sub-command printed, as its lines without their line breaks;
   * empty when it printed nothing (an empty `cat`).
   */
  type Output = seq<string>

  /** The lines one sub-command contributes: its start marker, its output's lines, its end marker. */
  function Block(name: string, output: Output): seq<string> {
    [StartMarker(name)] + output + [EndMarker(name)]
  }

  /** The output lines of a run of the bundle in which sub-command `k` printed `outputs[k]`. */
  function BundleLines(names: seq<string>, outputs: map<string, Output>): seq<string>
    requires forall i :: 0 <= i < |names| ==> names[i] in outputs
    decreases |names|
  {
    if names == [] then []
    else BundleLines(names[..|names| - 1], outputs) + Block(names[|names| - 1], outputs[names[|names| - 1]])
  }

  /** `line` is none of the marker lines of `names`. */
  predicate NotMarker(line: string, names: seq<string>) {
    forall i :: 0 <= i < |names| ==> line != StartMarker(names[i]) && line != EndMarker(names[i])
  }

  /** None of `lines` is a marker line of `names`. */
  predicate NoMarkerLines(lines: seq<string>, names: seq<string>) {
    forall j :: 0 <= j < |lines| ==> NotMarker(lines[j], names)
  }

  /** Every output of `run` (a prefix of the bundle's names) is free of marker lines of `names`. */
  predicate OutputsClean(run: seq<string>, outputs: map<string, Output>, names: seq<string>)
    requires forall i :: 0 <= i < |run| ==> run[i] in outputs
  {
    forall i :: 0 <= i < |run| ==> NoMarkerLines(outputs[run[i]], names)
  }

  /** None of `lines` holds a line break. */
  predicate WholeLines(lines: seq<string>) {
    forall j :: 0 <= j < |lines| ==> '\n' !in lines[j]
  }

  /**
   * What the round trip needs of a run: distinct names without line breaks,
   * an output of whole lines for each, and no output line that reads as a
   * marker line.
   */
  predicate WellFormedRun(names: seq<string>, outputs: map<string, Output>) {
    && (forall i, j :: 0 <= i < j < |names| ==> names[i] != names[j])
    && (forall i :: 0 <= i < |names| ==> '\n' !in names[i] && names[i] in outputs && WholeLines(outputs[names[i]]))
    && OutputsClean(names, outputs, names)
  }

  lemma MarkersDiffer(a: string, b: string)
    ensures StartMarker(a) != EndMarker(b)
    ensures StartMarker(a) == StartMarker(b) ==> a == b
    ensures EndMarker(a) == EndMarker(b) ==> a == b
  {
    assert StartMarker(a)[1] == 'S' && EndMarker(b)[1] == 'E';
    if StartMarker(a) == StartMarker(b) {
      assert a == StartMarker(a)[7..|StartMarker(a)| - 1];
      assert b == StartMarker(b)[7..|StartMarker(b)| - 1];
    }
    if EndMarker(a) == EndMarker(b) {
      assert a == EndMarker(a)[5..|EndMarker(a)| - 1];
      assert b == EndMarker(b)[5..|EndMarker(b)| - 1];
    }
  }

  /** The last name's block closes the lines of a run. */
  lemma BundleLinesSnoc(names: seq<string>, outputs: map<string, Output>)
    requires names != [] && forall i :: 0 <= i < |names| ==> names[i] in outputs
    ensures BundleLines(names, outputs) ==
              BundleLines(names[..|names| - 1], outputs) + Block(names[|names| - 1], outputs[names[|names| - 1]])
  {
  }

  lemma {:induction false} BundleLinesAppend(a: seq<string>, b: seq<string>, outputs: map<string, Output>)
    requires forall i :: 0 <= i < |a| ==> a[i] in outputs
    requires forall i :: 0 <= i < |b| ==> b[i] in outputs
    ensures BundleLines(a + b, outputs) == BundleLines(a, outputs) + BundleLines(b, outputs)
    decreases |b|
  {
    if b == [] {
      assert a + b == a;
    } else {
      var init, last := b[..|b| - 1], b[|b| - 1];
      forall i | 0 <= i < |init| ensures init[i] in outputs {
        assert init[i] == b[i];
      }
      BundleLinesAppend(a, init, outputs);
      var ab := a + b;
      assert ab[..|ab| - 1] == a + init && ab[|ab| - 1] == last;
      BundleLinesSnoc(ab, outputs);
      BundleLinesSnoc(b, outputs);
      Associate(BundleLines(a, outputs), BundleLines(init, outputs), Block(last, outputs[last]));
    }
  }

  /** The lines of a run of `names` hold neither marker of a name outside `names`. */
  lemma {:induction false} BundleLinesAvoid(names: seq<string>, outputs: map<string, Output>, k: string, all: seq<string>)
    requires forall i :: 0 <= i < |names| ==> names[i] in outputs && names[i] != k
    requires k in all
    requires OutputsClean(names, outputs, all)
    ensures StartMarker(k) !in BundleLines(names, outputs) && EndMarker(k) !in BundleLines(names, outputs)
    decreases |names|
  {
    if names != [] {
      var init := names[..|names| - 1];
      var last := names[|names| - 1];
      assert forall i :: 0 <= i < |init| ==> init[i] == names[i];
      BundleLinesAvoid(init, outputs, k, all);
      MarkersDiffer(k, last);
      MarkersDiffer(last, k);
      var ls := outputs[last];
      var p :| 0 <= p < |all| && all[p] == k;
      assert NoMarkerLines(ls, all);
      forall j | 0 <= j < |ls| ensures ls[j] != StartMarker(k) && ls[j] != EndMarker(k) {
        assert NotMarker(ls[j], all);
      }
    }
  }

  lemma {:induction false} IndexOfAfter(pre: seq<string>, rest: seq<string>, x: string)
    requires x !in pre
    ensures IndexOf(pre + rest, x) == match IndexOf(rest, x) case None => None case Some(i) => Some(|pre| + i)
    decreases |pre|
  {
    if pre != [] {
      IndexOfAfter(pre[1..], rest, x);
      assert (pre + rest)[1..] == pre[1..] + rest;
    } else {
      assert pre + rest == rest;
    }
  }

  /** The section of the name whose block follows marker-free lines is exactly that block's output. */
  lemma SectionOfBlock(pre: seq<string>, name: string, output: Output, post: seq<string>, names: seq<string>)
    requires StartMarker(name) !in pre && EndMarker(name) !in pre
    requires name in names
    requires NoMarkerLines(output, names)
    ensures Section(pre + Block(name, output) + post, name) == Ok(Join(output, "\n"))
  {
    var ls := output;
    var lines := pre + Block(name, output) + post;
    MarkersDiffer(name, name);
    var p :| 0 <= p < |names| && names[p] == name;
    assert StartMarker(name) !in ls && EndMarker(name) !in ls by {
      forall j | 0 <= j < |ls| ensures ls[j] != StartMarker(name) && ls[j] != EndMarker(name) {
        assert NotMarker(ls[j], names);
      }
    }
    assert lines == pre + ([StartMarker(name)] + ls + [EndMarker(name)] + post);
    IndexOfAfter(pre, [StartMarker(name)] + ls + [EndMarker(name)] + post, StartMarker(name));
    assert lines == pre + [StartMarker(name)] + ls + ([EndMarker(name)] + post);
    assert lines == (pre + [StartMarker(name)] + ls) + ([EndMarker(name)] + post);
    IndexOfAfter(pre + [StartMarker(name)] + ls, [EndMarker(name)] + post, EndMarker(name));
    assert lines[|pre| + 1..|pre| + 1 + |ls|] == ls;
  }

  /** The lines of a run around its `i`-th block. */
  lemma BundleLinesAt(names: seq<string>, outputs: map<string, Output>, i: nat)
    requires forall j :: 0 <= j < |names| ==> names[j] in outputs
    requires i < |names|
    ensures BundleLines(names, outputs) ==
              BundleLines(names[..i], outputs) + Block(names[i], outputs[names[i]]) + BundleLines(names[i + 1..], outputs)
  {
    var k := names[i];
    assert names == names[..i] + [k] + names[i + 1..];
    BundleLinesAppend(names[..i] + [k], names[i + 1..], outputs);
    BundleLinesAppend(names[..i], [k], outputs);
    assert BundleLines([k], outputs) == Block(k, outputs[k]) by {
      assert [k][..0] == [];
    }
  }

  /** The blocks before the `i`-th one hold neither of its marker lines. */
  lemma PrefixAvoidsMarkers(names: seq<string>, outputs: map<string, Output>, i: nat)
    requires WellFormedRun(names, outputs)
    requires i < |names|
    ensures StartMarker(names[i]) !in BundleLines(names[..i], outputs)
    ensures EndMarker(names[i]) !in BundleLines(names[..i], outputs)
  {
    var run := names[..i];
    forall j | 0 <= j < |run| ensures run[j] in outputs && run[j] != names[i] {
      assert run[j] == names[j];
    }
    forall j | 0 <= j < |run| ensures NoMarkerLines(outputs[run[j]], names) {
      assert run[j] == names[j];
    }
    BundleLinesAvoid(run, outputs, names[i], names);
  }

  /** In the lines of a well-formed run, the section of each name is that name's output. */
  lemma SectionOfRun(names: seq<string>, outputs: map<string, Output>, trailer: seq<string>, i: nat)
    requires WellFormedRun(names, outputs)
    requires i < |names|
    ensures Section(BundleLines(names, outputs) + trailer, names[i]) == Ok(Join(outputs[names[i]], "\n"))
  {
    PrefixAvoidsMarkers(names, outputs, i);
    BundleLinesAt(names, outputs, i);
    assert NoMarkerLines(outputs[names[i]], names);
    SectionAt(names, outputs, trailer, i);
  }

  lemma SectionAt(names: seq<string>, outputs: map<string, Output>, trailer: seq<string>, i: nat)
    requires forall j :: 0 <= j < |names| ==> names[j] in outputs
    requires i < |names|
    requires BundleLines(names, outputs) ==
               BundleLines(names[..i], outputs) + Block(names[i], outputs[names[i]]) + BundleLines(names[i + 1..], outputs)
    requires StartMarker(names[i]) !in BundleLines(names[..i], outputs)
    requires EndMarker(names[i]) !in BundleLines(names[..i], outputs)
    requires NoMarkerLines(outputs[names[i]], names)
    ensures Section(BundleLines(names, outputs) + trailer, names[i]) == Ok(Join(outputs[names[i]], "\n"))
  {
    var k := names[i];
    var pre := BundleLines(names[..i], outputs);
    var rest := BundleLines(names[i + 1..], outputs);
    Associate(pre + Block(k, outputs[k]), rest, trailer);
    SectionOfBlock(pre, k, outputs[k], rest + trailer, names);
  }

  /** Splitting the raw text of a non-empty run gives back its lines. */
  lemma SplitOfRun(names: seq<string>, outputs: map<string, Output>, trailer: seq<string>)
    requires WellFormedRun(names, outputs)
    requires WholeLines(trailer)
    requires names != []
    ensures Split(Join(BundleLines(names, outputs) + trailer, "\n"), '\n') == BundleLines(names, outputs) + trailer
  {
    var lines := BundleLines(names, outputs) + trailer;
    assert |BundleLines(names, outputs)| >= |Block(names[|names| - 1], outputs[names[|names| - 1]])|;
    LinesHaveNoBreak(names, outputs);
    SplitJoin(lines, '\n');
  }

  /** When every name's section is known, decoding returns exactly those sections. */
  lemma {:induction false} DecodeKnownSections(lines: seq<string>, names: seq<string>, outputs: map<string, string>)
    requires forall i :: 0 <= i < |names| ==> names[i] in outputs && Section(lines, names[i]) == Ok(outputs[names[i]])
    ensures DecodeLines(lines, names).Ok?
    ensures forall k :: k in DecodeLines(lines, names).value <==> k in names
    ensures forall k :: k in DecodeLines(lines, names).value ==> DecodeLines(lines, names).value[k] == outputs[k]
    decreases |names|
  {
    if names != [] {
      var init := names[..|names| - 1];
      var last := names[|names| - 1];
      forall i | 0 <= i < |init| ensures init[i] in outputs && Section(lines, init[i]) == Ok(outputs[init[i]]) {
        assert init[i] == names[i];
      }
      DecodeKnownSections(lines, init, outputs);
      var m := DecodeLines(lines, init).value;
      assert Section(lines, last) == Ok(outputs[last]);
      DecodeLinesNext(lines, names, |names| - 1, m);
      assert names[..|names|] == names;
      SplitLast(names);
    }
  }

  /** The text each sub-command printed: its lines joined by line breaks, as the section joins them. */
  function Texts(outputs: map<string, Output>): (r: map<string, string>)
    ensures r.Keys == outputs.Keys
  {
    map k | k in outputs :: Join(outputs[k], "\n")
  }

  /** What decoding a run of `names` should give: each name mapped to the text of its output. */
  function RunTexts(names: seq<string>, outputs: map<string, Output>): (r: map<string, string>)
    requires forall i :: 0 <= i < |names| ==> names[i] in outputs
    ensures forall k :: k in r <==> k in names
    ensures forall k :: k in r ==> k in outputs && r[k] == Join(outputs[k], "\n")
  {
    map k | k in names :: Join(outputs[k], "\n")
  }

  /** Every name of a well-formed run has its own output's text as its section. */
  lemma SectionsOfRun(names: seq<string>, outputs: map<string, Output>, trailer: seq<string>)
    requires WellFormedRun(names, outputs)
    ensures forall i :: 0 <= i < |names| ==>
              names[i] in Texts(outputs) && Section(BundleLines(names, outputs) + trailer, names[i]) == Ok(Texts(outputs)[names[i]])
  {
    forall i | 0 <= i < |names|
      ensures names[i] in Texts(outputs) && Section(BundleLines(names, outputs) + trailer, names[i]) == Ok(Texts(outputs)[names[i]])
    {
      SectionOfRun(names, outputs, trailer, i);
    }
  }

  /**
   * Round trip: the raw text of a run in which every sub-command printed its
   * output as whole lines, none of them if it printed nothing, decodes to
   * exactly those outputs, whatever lines follow the last block.
   */
  lemma RoundTrip(names: seq<string>, outputs: map<string, Output>, trailer: seq<string>)
    requires WellFormedRun(names, outputs)
    requires WholeLines(trailer)
    ensures Decode(Join(BundleLines(names, outputs) + trailer, "\n"), names)
            == Ok(RunTexts(names, outputs))
  {
    if names != [] {
      var lines := BundleLines(names, outputs) + trailer;
      assert Split(Join(lines, "\n"), '\n') == lines by {
        SplitOfRun(names, outputs, trailer);
      }
      DecodeRun(names, outputs, trailer);
    }
  }

  /** The lines of a well-formed run decode to the text of every sub-command's output. */
  lemma DecodeRun(names: seq<string>, outputs: map<string, Output>, trailer: seq<string>)
    requires WellFormedRun(names, outputs)
    ensures DecodeLines(BundleLines(names, outputs) + trailer, names) == Ok(RunTexts(names, outputs))
  {
    SectionsOfRun(names, outputs, trailer);
    DecodeFromSections(BundleLines(names, outputs) + trailer, names, Texts(outputs));
    TextsOfNames(names, outputs);
  }

  lemma TextsOfNames(names: seq<string>, outputs: map<string, Output>)
    requires forall i :: 0 <= i < |names| ==> names[i] in outputs
    ensures (map k | k in names :: Texts(outputs)[k]) == RunTexts(names, outputs)
  {
  }

  /**
   * A sub-command that prints nothing, such as a `cat` of an empty file,
   * leaves its two marker lines adjacent; its section is the empty text.
   */
  lemma SilentSubCommand(name: string)
    requires '\n' !in name
    ensures Decode(StartMarker(name) + "\n" + EndMarker(name) + "\n", [name]) == Ok(map[name := ""])
  {
    var outputs: map<string, Output> := map[name := []];
    assert BundleLines([name], outputs) == Block(name, []) by {
      assert [name][..0] == [];
    }
    var lines := BundleLines([name], outputs) + [""];
    assert lines == [StartMarker(name), EndMarker(name), ""];
    var text := StartMarker(name) + "\n" + EndMarker(name) + "\n";
    assert Join(lines, "\n") == text by {
      JoinThree(StartMarker(name), EndMarker(name), "", "\n");
      assert text + "" == text;
    }
    RoundTrip([name], outputs, [""]);
    assert RunTexts([name], outputs) == map[name := ""];
  }

  lemma JoinThree(a: string, b: string, c: string, sep: string)
    ensures Join([a, b, c], sep) == a + sep + b + sep + c
  {
    assert [a, b, c][1..] == [b, c] && [b, c][1..] == [c];
    assert Join([b, c], sep) == b + sep + c;
    assert Join([a, b, c], sep) == a + sep + (b + sep + c);
    Associate(a + sep, b + sep, c);
    Associate(a, sep, b + sep);
    Associate(a + sep, b, sep);
  }

  lemma DecodeFromSections(lines: seq<string>, names: seq<string>, outputs: map<string, string>)
    requires forall i :: 0 <= i < |names| ==> names[i] in outputs && Section(lines, names[i]) == Ok(outputs[names[i]])
    ensures DecodeLines(lines, names) == Ok(map k | k in names :: outputs[k])
  {
    DecodeKnownSections(lines, names, outputs);
    assert DecodeLines(lines, names).value == map k | k in names :: outputs[k];
  }

  lemma {:induction false} LinesHaveNoBreak(names: seq<string>, outputs: map<string, Output>)
    requires forall i :: 0 <= i < |names| ==> '\n' !in names[i] && names[i] in outputs && WholeLines(outputs[names[i]])
    ensures WholeLines(BundleLines(names, outputs))
    decreases |names|
  {
    if names != [] {
      var init := names[..|names| - 1];
      var last := names[|names| - 1];
      assert forall i :: 0 <= i < |init| ==> init[i] == names[i];
      LinesHaveNoBreak(init, outputs);
      assert '\n' !in StartMarker(last) && '\n' !in EndMarker(last);
      assert WholeLines(outputs[last]);
    }
  }

  /** A run whose `&&` chain stopped inside a sub-command lacks that name's end marker and cannot be decoded. */
  lemma TruncatedRunFails(lines: seq<string>, names: seq<string>, i: nat)
    requires i < |names| && EndMarker(names[i]) !in lines
    ensures DecodeLines(lines, names).Err?
  {
    DecodeLinesOk(lines, names);
  }
}
