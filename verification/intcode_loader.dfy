/** `read_intcode_input` without the read: a program is one line of
    comma-separated `isize` values. */
module IntcodeLoader {
  import opened Wrappers
  import Text
  import RustInt
  import Decimal

  /** `str::parse::<isize>`. */
  function ParseValue(field: string): Result<int, Decimal.ParseIntError>
  {
    Decimal.Parse(field, RustInt.IsizeMin, RustInt.IsizeMax)
  }

  /** Collecting the parsed fields into a `Result<Vec<_>, _>`: every field
      must parse, and the values keep the fields' order. */
  function ParseAll(fields: seq<string>): (r: Result<seq<int>, Decimal.ParseIntError>)
    ensures r.Ok? <==> forall i :: 0 <= i < |fields| ==> ParseValue(fields[i]).Ok?
    ensures r.Ok? ==> |r.value| == |fields|
    ensures r.Ok? ==> forall i :: 0 <= i < |fields| ==> r.value[i] == ParseValue(fields[i]).value
  {
    if |fields| == 0 then Ok([])
    else
      var v :- ParseValue(fields[0]);
      var rest :- ParseAll(fields[1..]);
      assert forall i :: 1 <= i < |fields| ==> fields[i] == fields[1..][i - 1];
      Ok([v] + rest)
  }

  /** The fields of a line: trimmed, then split at every `,`. */
  function Fields(line: string): seq<string>
  {
    Text.Split(Text.Trim(line), ',')
  }

  /** The program in a line of text: the line is trimmed, split at every `,`,
      and each field parsed as an `isize`. An empty line is one empty field,
      which does not parse. */
  function Load(line: string): (r: Result<seq<int>, Decimal.ParseIntError>)
    ensures r.Ok? <==> forall i :: 0 <= i < |Fields(line)| ==> ParseValue(Fields(line)[i]).Ok?
    ensures r.Ok? ==> |r.value| == |Fields(line)|
    ensures r.Ok? ==> forall i :: 0 <= i < |Fields(line)| ==> r.value[i] == ParseValue(Fields(line)[i]).value
    ensures r.Ok? ==> |r.value| >= 1
    ensures r.Ok? ==> forall i :: 0 <= i < |r.value| ==> RustInt.IsizeMin <= r.value[i] <= RustInt.IsizeMax
    ensures Text.Trim(line) == "" ==> r.Err?
  {
    var fields := Fields(line);
    assert Text.Trim(line) == "" ==> fields == [""];
    ParseAll(fields)
  }

  /** A field that is not an optional sign followed by digits, or that
      denotes a value outside `isize`, makes the whole load fail. */
  lemma LoadRejects(line: string, i: nat)
    requires i < |Fields(line)|
    requires !(Decimal.WellFormed(Fields(line)[i]) && RustInt.IsizeMin <= Decimal.Denoted(Fields(line)[i]) <= RustInt.IsizeMax)
    ensures Load(line).Err?
  {
  }

  /** The values written in decimal, most significant first. */
  function Shown(prog: seq<int>): (fields: seq<string>)
    ensures |fields| == |prog|
    ensures forall i :: 0 <= i < |prog| ==> fields[i] == Decimal.Show(prog[i])
  {
    if |prog| == 0 then [] else [Decimal.Show(prog[0])] + Shown(prog[1..])
  }

  /** A program written as the line the loader reads. */
  function Render(prog: seq<int>): string
  {
    Text.Join(Shown(prog), ',')
  }

  /** Loading the rendering of a non-empty program of `isize` values gives the
      program back. */
  lemma LoadRender(prog: seq<int>)
    requires |prog| >= 1
    requires forall i :: 0 <= i < |prog| ==> RustInt.IsizeMin <= prog[i] <= RustInt.IsizeMax
    ensures Load(Render(prog)) == Ok(prog)
  {
    ShownFields(prog);
    RenderFields(prog);
    var r := Load(Render(prog));
    assert r.Ok?;
    assert r.value == prog;
  }

  /** Each rendered value is a non-empty, comma-free field that parses back
      to the value. */
  lemma ShownFields(prog: seq<int>)
    requires forall i :: 0 <= i < |prog| ==> RustInt.IsizeMin <= prog[i] <= RustInt.IsizeMax
    ensures forall i :: 0 <= i < |prog| ==>
      ',' !in Shown(prog)[i] && |Shown(prog)[i]| > 0 && ParseValue(Shown(prog)[i]) == Ok(prog[i])
  {
    var fields := Shown(prog);
    forall i | 0 <= i < |fields|
      ensures ',' !in fields[i] && |fields[i]| > 0
      ensures ParseValue(fields[i]) == Ok(prog[i])
    {
      Decimal.ShowChars(prog[i]);
      Decimal.ParseShow(prog[i], RustInt.IsizeMin, RustInt.IsizeMax);
    }
  }

  /** The rendered line has no whitespace to trim, so its fields are the
      rendered values. */
  lemma RenderFields(prog: seq<int>)
    requires |prog| >= 1
    requires forall i :: 0 <= i < |prog| ==> ',' !in Shown(prog)[i] && |Shown(prog)[i]| > 0
    ensures Fields(Render(prog)) == Shown(prog)
  {
    var fields := Shown(prog);
    Text.JoinEnds(fields, ',');
    Decimal.ShowChars(prog[0]);
    Decimal.ShowChars(prog[|prog| - 1]);
    Text.TrimUnchanged(Render(prog));
    Text.SplitJoin(fields, ',');
  }
}
