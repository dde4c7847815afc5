/**
 * The RASP `.eng` thrust-curve reader and the mass-versus-time table of
 * `components/motor/motor.cpp`. A file is the sequence of its lines (or
 * `isOpen == false` when it cannot be opened); `stod` is a parameter. A
 * `std::map<double, double>` is a sequence of (key, value) pairs with strictly
 * increasing keys.
 */
module Motor {
  import opened Wrappers
  import opened Integration

  type Curve = seq<(real, real)>

  predicate Sorted(c: Curve)
  {
    forall i, j :: 0 <= i < j < |c| ==> c[i].0 < c[j].0
  }

  /** The map a sorted curve stands for. */
  function ToMap(c: Curve): map<real, real>
  {
    if |c| == 0 then map[] else ToMap(c[1..])[c[0].0 := c[0].1]
  }

  /**
   * `thrustData[time] = thrust`: insert, or overwrite the entry with the same
   * time. The first and last entries are those of the smallest and greatest
   * keys, which is what `rbegin` reads.
   */
  function Insert(c: Curve, k: real, v: real): (r: Curve)
    requires Sorted(c)
    ensures Sorted(r) && |r| > 0
    ensures r[0] == if |c| == 0 || k <= c[0].0 then (k, v) else c[0]
    ensures r[|r| - 1] == if |c| == 0 || k >= c[|c| - 1].0 then (k, v) else c[|c| - 1]
    decreases |c|
  {
    if |c| == 0 then [(k, v)]
    else if k < c[0].0 then
      [(k, v)] + c
    else if k == c[0].0 then
      [(k, v)] + c[1..]
    else
      var rest := Insert(c[1..], k, v);
      assert rest[0].0 > c[0].0;
      [c[0]] + rest
  }

  /** Inserting updates the map the curve stands for: the last write of a time wins. */
  lemma {:induction false} InsertMap(c: Curve, k: real, v: real)
    requires Sorted(c)
    ensures ToMap(Insert(c, k, v)) == ToMap(c)[k := v]
    decreases |c|
  {
    var r := Insert(c, k, v);
    if |c| == 0 {
    } else if k < c[0].0 {
      assert r[1..] == c;
      assert ToMap(r) == ToMap(c)[k := v];
    } else if k == c[0].0 {
      assert r[1..] == c[1..];
      var m := ToMap(c[1..]);
      assert ToMap(r) == m[k := v];
      assert ToMap(c) == m[k := c[0].1];
      Overwrite(m, k, c[0].1, v);
    } else {
      var rest := Insert(c[1..], k, v);
      InsertMap(c[1..], k, v);
      assert r[1..] == rest;
      var m := ToMap(c[1..]);
      assert ToMap(r) == m[k := v][c[0].0 := c[0].1];
      assert ToMap(c) == m[c[0].0 := c[0].1];
      Commute(m, k, v, c[0].0, c[0].1);
    }
  }

  lemma Overwrite(m: map<real, real>, a: real, x: real, y: real)
    ensures m[a := x][a := y] == m[a := y]
  {
  }

  lemma Commute(m: map<real, real>, a: real, x: real, b: real, y: real)
    requires a != b
    ensures m[a := x][b := y] == m[b := y][a := x]
  {
  }

  /** RASP header fields; diameter and length are converted from millimetres. */
  datatype Header = Header(name: string, diameter: real, length: real, propMass: real, totalMass: real)

  /** What `create` receives. */
  datatype MotorData = MotorData(name: string, radius: real, length: real, thrust: Curve, propMass: real, totalMass: real)

  /**
   * `NotOpened` and `InvalidHeader` are the two null returns; `ShortLine` is a
   * data line with fewer than two tokens, which the source indexes out of range.
   */
  datatype ReadResult = NotOpened | InvalidHeader | ShortLine | Read(data: MotorData)

  predicate IsSpace(c: char)
  {
    c == ' ' || c == '\t' || c == '\n' || c == '\r' || c == '\U{B}' || c == '\U{C}'
  }

  /** A line starting with ';' is a comment. */
  predicate IsComment(line: string)
  {
    |line| > 0 && line[0] == ';'
  }

  /** The length of the word at the front of `s`. */
  function WordLength(s: string): (n: nat)
    requires |s| > 0 && !IsSpace(s[0])
    ensures 0 < n <= |s|
    ensures forall i :: 0 <= i < n ==> !IsSpace(s[i])
    ensures n < |s| ==> IsSpace(s[n])
  {
    if |s| == 1 || IsSpace(s[1]) then 1 else 1 + WordLength(s[1..])
  }

  /** Reading a line with `>>` into strings: the maximal runs of non-space characters. */
  function Tokens(s: string): (r: seq<string>)
    ensures forall w :: w in r ==> |w| > 0 && forall i :: 0 <= i < |w| ==> !IsSpace(w[i])
    ensures |r| == 0 <==> forall i :: 0 <= i < |s| ==> IsSpace(s[i])
    decreases |s|
  {
    if |s| == 0 then []
    else if IsSpace(s[0]) then
      var r := Tokens(s[1..]);
      assert forall i :: 1 <= i < |s| ==> s[i] == s[1..][i - 1];
      r
    else
      var n := WordLength(s);
      [s[..n]] + Tokens(s[n..])
  }

  /** The header fields; tokens 3 (delays) and 6 (manufacturer) are not read. */
  function HeaderOf(parts: seq<string>, stod: string -> real): (h: Header)
    requires |parts| == 7
    ensures h.name == parts[0]
    ensures h.diameter == stod(parts[1]) / 1000.0 && h.length == stod(parts[2]) / 1000.0
    ensures h.propMass == stod(parts[4]) && h.totalMass == stod(parts[5])
  {
    Header(parts[0], stod(parts[1]) / 1000.0, stod(parts[2]) / 1000.0, stod(parts[4]), stod(parts[5]))
  }

  /** The reader's state between lines. */
  datatype Scan = Scan(headerRead: bool, header: Header, thrust: Curve)

  const Start := Scan(false, Header("", 0.0, 0.0, 0.0, 0.0), [])

  /** The motor handed to `create`: radius is half the diameter. */
  function Finish(st: Scan): (r: ReadResult)
    ensures r.Read? && r.data.radius == st.header.diameter / 2.0 && r.data.thrust == st.thrust
    ensures r.data.name == st.header.name && r.data.length == st.header.length
    ensures r.data.propMass == st.header.propMass && r.data.totalMass == st.header.totalMass
  {
    Read(MotorData(st.header.name, st.header.diameter / 2.0, st.header.length, st.thrust,
                   st.header.propMass, st.header.totalMass))
  }

  /** The rest of the read loop from state `st`. */
  function Continue(lines: seq<string>, st: Scan, stod: string -> real): (r: ReadResult)
    requires Sorted(st.thrust)
    ensures r.Read? ==> Sorted(r.data.thrust)
    ensures !r.NotOpened?
    decreases |lines|
  {
    if |lines| == 0 then Finish(st)
    else if IsComment(lines[0]) then Continue(lines[1..], st, stod)
    else
      var parts := Tokens(lines[0]);
      if !st.headerRead then
        if |parts| != 7 then InvalidHeader
        else Continue(lines[1..], st.(headerRead := true, header := HeaderOf(parts, stod)), stod)
      else if |parts| < 2 then ShortLine
      else
        var c := Insert(st.thrust, stod(parts[0]), stod(parts[1]));
        if c[|c| - 1].1 == 0.0 then Finish(st.(thrust := c))
        else Continue(lines[1..], st.(thrust := c), stod)
  }

  /** `fromFile`: null for a file that did not open, a curve sorted by time otherwise. */
  function ReadFile(isOpen: bool, lines: seq<string>, stod: string -> real): (r: ReadResult)
    ensures r.NotOpened? <==> !isOpen
    ensures r.Read? ==> Sorted(r.data.thrust)
  {
    if !isOpen then NotOpened else Continue(lines, Start, stod)
  }

  /** `fromFile`: the getline loop with its header flag. */
  method FromFile(isOpen: bool, lines: seq<string>, stod: string -> real) returns (r: ReadResult)
    ensures r == ReadFile(isOpen, lines, stod)
  {
    if !isOpen {
      return NotOpened;
    }
    var st := Start;
    var i := 0;
    while i < |lines|
      invariant 0 <= i <= |lines| && Sorted(st.thrust)
      invariant Continue(lines[i..], st, stod) == ReadFile(isOpen, lines, stod)
    {
      var line := lines[i];
      assert lines[i..][1..] == lines[i + 1..];
      if IsComment(line) {
        i := i + 1;
        continue;
      }
      var parts := Tokens(line);
      if !st.headerRead {
        if |parts| != 7 {
          return InvalidHeader;
        }
        st := st.(headerRead := true, header := HeaderOf(parts, stod));
      } else {
        if |parts| < 2 {
          return ShortLine;
        }
        var time := stod(parts[0]);
        var thrust := stod(parts[1]);
        st := st.(thrust := Insert(st.thrust, time, thrust));
        if st.thrust[|st.thrust| - 1].1 == 0.0 {
          break;
        }
      }
      i := i + 1;
    }
    return Finish(st);
  }

  /** Comment lines in front of the header change nothing. */
  lemma {:induction false} CommentsSkipped(comments: seq<string>, rest: seq<string>, st: Scan, stod: string -> real)
    requires Sorted(st.thrust)
    requires forall i :: 0 <= i < |comments| ==> IsComment(comments[i])
    ensures Continue(comments + rest, st, stod) == Continue(rest, st, stod)
    decreases |comments|
  {
    if |comments| > 0 {
      var all := comments + rest;
      assert all[0] == comments[0];
      assert Continue(all, st, stod) == Continue(all[1..], st, stod);
      assert all[1..] == comments[1..] + rest;
      CommentsSkipped(comments[1..], rest, st, stod);
    } else {
      assert comments + rest == rest;
    }
  }

  /** A first non-comment line without exactly seven tokens makes `fromFile` return null. */
  lemma HeaderNeedsSevenTokens(comments: seq<string>, header: string, rest: seq<string>, stod: string -> real)
    requires forall i :: 0 <= i < |comments| ==> IsComment(comments[i])
    requires !IsComment(header) && |Tokens(header)| != 7
    ensures ReadFile(true, comments + [header] + rest, stod) == InvalidHeader
  {
    assert comments + [header] + rest == comments + ([header] + rest);
    CommentsSkipped(comments, [header] + rest, Start, stod);
  }

  /** A seven-token header sets the fields it names and nothing else. */
  lemma HeaderFields(comments: seq<string>, header: string, stod: string -> real)
    requires forall i :: 0 <= i < |comments| ==> IsComment(comments[i])
    requires !IsComment(header) && |Tokens(header)| == 7
    ensures var r := ReadFile(true, comments + [header], stod);
            var parts := Tokens(header);
            r.Read? && r.data.name == parts[0] && r.data.radius == stod(parts[1]) / 1000.0 / 2.0
            && r.data.length == stod(parts[2]) / 1000.0
            && r.data.propMass == stod(parts[4]) && r.data.totalMass == stod(parts[5])
            && r.data.thrust == []
  {
    assert comments + [header] == comments + ([header] + []);
    CommentsSkipped(comments, [header], Start, stod);
    assert [header][1..] == [];
  }

  /**
   * Once the entry with the greatest time has zero thrust the loop breaks:
   * whatever follows is never read.
   */
  lemma StopsAtZeroThrust(line: string, rest1: seq<string>, rest2: seq<string>, st: Scan, stod: string -> real)
    requires Sorted(st.thrust) && st.headerRead && !IsComment(line)
    requires var parts := Tokens(line);
             |parts| >= 2
             && var c := Insert(st.thrust, stod(parts[0]), stod(parts[1]));
                c[|c| - 1].1 == 0.0
    ensures Continue([line] + rest1, st, stod) == Continue([line] + rest2, st, stod)
    ensures Continue([line] + rest1, st, stod).Read?
  {
  }

  /** A repeated time keeps the thrust of its last line. */
  lemma LastWriteWins(c: Curve, k: real, v1: real, v2: real)
    requires Sorted(c)
    ensures ToMap(Insert(Insert(c, k, v1), k, v2)) == ToMap(c)[k := v2]
  {
    InsertMap(c, k, v1);
    InsertMap(Insert(c, k, v1), k, v2);
    Overwrite(ToMap(c), k, v1, v2);
  }

  function Times(c: Curve): (r: seq<real>)
    ensures |r| == |c| && forall i :: 0 <= i < |c| ==> r[i] == c[i].0
  {
    seq(|c|, i requires 0 <= i < |c| => c[i].0)
  }

  function Thrusts(c: Curve): (r: seq<real>)
    ensures |r| == |c| && forall i :: 0 <= i < |c| ==> r[i] == c[i].1
  {
    seq(|c|, i requires 0 <= i < |c| => c[i].1)
  }

  /** The impulse spent up to each sample time. */
  function Impulse(c: Curve): (r: seq<real>)
    ensures |r| == |c|
  {
    Cumulative(Times(c), Thrusts(c))
  }

  /** The entries after (0, 0): sample k ≥ 1 gets totalMass − propMass·(impulse to k / total impulse). */
  function Fill(c: Curve, k: nat, propMass: real, totalMass: real, total: real): (m: map<real, real>)
    requires k < |c| && total != 0.0
  {
    if k == 0 then map[0.0 := 0.0]
    else Fill(c, k - 1, propMass, totalMass, total)[c[k].0 := totalMass - propMass * (Impulse(c)[k] / total)]
  }

  /**
   * `calculateMassData`. With a zero total impulse and more than one sample
   * the source divides by zero; `None` stands for that table of NaNs.
   */
  function MassTable(c: Curve, propMass: real, totalMass: real): (r: Option<map<real, real>>)
    requires |c| > 0
    ensures r.None? <==> |c| > 1 && Impulse(c)[|c| - 1] == 0.0
  {
    var total := Impulse(c)[|c| - 1];
    if |c| == 1 then Some(map[0.0 := 0.0])
    else if total == 0.0 then None
    else Some(Fill(c, |c| - 1, propMass, totalMass, total))
  }

  /** The loop form: total impulse first, then one entry per later sample. */
  method CalculateMassData(c: Curve, propMass: real, totalMass: real) returns (r: Option<map<real, real>>)
    requires |c| > 0
    ensures r == MassTable(c, propMass, totalMass)
  {
    var times := Times(c);
    var thrusts := Thrusts(c);
    var impulse := Impulse(c);
    var total := 0.0;
    var i := 1;
    while i < |c|
      invariant 1 <= i <= |c| && total == impulse[i - 1]
    {
      total := total + Segment(times, thrusts, i);
      i := i + 1;
    }
    if |c| == 1 {
      return Some(map[0.0 := 0.0]);
    }
    if total == 0.0 {
      return None;
    }
    var massD := map[0.0 := 0.0];
    var spent := 0.0;
    i := 1;
    while i < |c|
      invariant 1 <= i <= |c| && spent == impulse[i - 1]
      invariant massD == Fill(c, i - 1, propMass, totalMass, total)
    {
      spent := spent + Segment(times, thrusts, i);
      massD := massD[times[i] := totalMass - propMass * (spent / total)];
      i := i + 1;
    }
    return Some(massD);
  }

  /** In a sorted curve, sample i keeps the value written for it. */
  lemma {:induction false} FillAt(c: Curve, k: nat, i: nat, propMass: real, totalMass: real, total: real)
    requires Sorted(c) && 1 <= i <= k < |c| && total != 0.0
    ensures c[i].0 in Fill(c, k, propMass, totalMass, total)
    ensures Fill(c, k, propMass, totalMass, total)[c[i].0] == totalMass - propMass * (Impulse(c)[i] / total)
  {
    if i < k {
      FillAt(c, k - 1, i, propMass, totalMass, total);
    }
  }

  /** The keys are zero and the sample times after the first. */
  lemma {:induction false} FillKeys(c: Curve, k: nat, propMass: real, totalMass: real, total: real)
    requires k < |c| && total != 0.0
    ensures Fill(c, k, propMass, totalMass, total).Keys == {0.0} + (set i | 1 <= i <= k :: c[i].0)
  {
    if k > 0 {
      FillKeys(c, k - 1, propMass, totalMass, total);
      assert (set i | 1 <= i <= k :: c[i].0) == (set i | 1 <= i <= k - 1 :: c[i].0) + {c[k].0};
    }
  }

  /** Zero stays mapped to zero when every sample time is positive. */
  lemma {:induction false} FillAtZero(c: Curve, k: nat, propMass: real, totalMass: real, total: real)
    requires Sorted(c) && k < |c| && total != 0.0 && c[0].0 >= 0.0
    ensures 0.0 in Fill(c, k, propMass, totalMass, total)
    ensures Fill(c, k, propMass, totalMass, total)[0.0] == 0.0
  {
    if k > 0 {
      FillAtZero(c, k - 1, propMass, totalMass, total);
    }
  }

  /** The table starts with (0, 0) and ends at totalMass − propMass. */
  lemma MassTableEnds(c: Curve, propMass: real, totalMass: real)
    requires |c| >= 2 && Sorted(c) && c[0].0 >= 0.0
    requires MassTable(c, propMass, totalMass).Some?
    ensures var m := MassTable(c, propMass, totalMass).value;
            m.Keys == {0.0} + (set i | 1 <= i < |c| :: c[i].0)
            && m[0.0] == 0.0
            && m[c[|c| - 1].0] == totalMass - propMass
  {
    var total := Impulse(c)[|c| - 1];
    FillKeys(c, |c| - 1, propMass, totalMass, total);
    FillAtZero(c, |c| - 1, propMass, totalMass, total);
    FillAt(c, |c| - 1, |c| - 1, propMass, totalMass, total);
    assert total / total == 1.0;
  }

  /** After the (0, 0) entry, masses never increase when thrusts and propellant mass are non-negative. */
  lemma MassNonIncreasing(c: Curve, propMass: real, totalMass: real, i: nat, j: nat)
    requires |c| >= 2 && Sorted(c) && propMass >= 0.0
    requires forall k :: 0 <= k < |c| ==> c[k].1 >= 0.0
    requires MassTable(c, propMass, totalMass).Some?
    requires 1 <= i <= j < |c|
    ensures var m := MassTable(c, propMass, totalMass).value;
            c[i].0 in m && c[j].0 in m && m[c[i].0] >= m[c[j].0]
  {
    var total := Impulse(c)[|c| - 1];
    ImpulseGrows(c, 0, |c| - 1);
    FillNonIncreasing(c, propMass, totalMass, total, i, j);
  }

  lemma FillNonIncreasing(c: Curve, propMass: real, totalMass: real, total: real, i: nat, j: nat)
    requires Sorted(c) && propMass >= 0.0 && total > 0.0
    requires forall k :: 0 <= k < |c| ==> c[k].1 >= 0.0
    requires 1 <= i <= j < |c|
    ensures var m := Fill(c, |c| - 1, propMass, totalMass, total);
            c[i].0 in m && c[j].0 in m && m[c[i].0] >= m[c[j].0]
  {
    FillAt(c, |c| - 1, i, propMass, totalMass, total);
    FillAt(c, |c| - 1, j, propMass, totalMass, total);
    ImpulseGrows(c, i, j);
    MassOrder(propMass, totalMass, Impulse(c)[i], Impulse(c)[j], total);
  }

  /** With non-negative thrust the impulse spent never decreases along the curve. */
  lemma ImpulseGrows(c: Curve, i: nat, j: nat)
    requires Sorted(c) && i <= j < |c|
    requires forall k :: 0 <= k < |c| ==> c[k].1 >= 0.0
    ensures 0.0 <= Impulse(c)[i] <= Impulse(c)[j]
  {
    var times, thrusts := Times(c), Thrusts(c);
    assert Increasing(times);
    assert NonNegative(thrusts);
    CumulativeNonDecreasing(times, thrusts, i, j);
    CumulativeNonDecreasing(times, thrusts, 0, i);
  }

  /** Spending more of the impulse leaves less mass. */
  lemma MassOrder(propMass: real, totalMass: real, a: real, b: real, total: real)
    requires propMass >= 0.0 && a <= b && total > 0.0
    ensures totalMass - propMass * (a / total) >= totalMass - propMass * (b / total)
  {
    DivideMonotone(a, b, total);
    MulMonotone(propMass, a / total, b / total);
  }

  lemma DivideMonotone(a: real, b: real, d: real)
    requires d > 0.0 && a <= b
    ensures a / d <= b / d
  {
    assert b / d - a / d == (b - a) / d;
  }

  lemma MulMonotone(k: real, a: real, b: real)
    requires k >= 0.0 && a <= b
    ensures k * a <= k * b
  {
    assert k * b - k * a == k * (b - a);
  }
}
