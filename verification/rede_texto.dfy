/**
 * The text form of a network (MLP/src/Rede.java, `toString` and `fromString`): a
 * header line `H;O;I;W;` (hidden count, output count, weights per hidden neuron,
 * weights per output neuron), then one line `1;bias;w0;w1;...` per hidden neuron
 * and one line `2;bias;w0;...` per output neuron, every line ended by a newline.
 * Numbers are written and read through a codec that stands for Java's
 * `Double.toString` and `Double.parseDouble`.
 */
module RedeTexto {
  import opened Wrappers
  import opened Excecoes
  import opened Texto
  import opened Neuronios
  import opened RedeSpec

  /** `Double.toString` (show) and `Double.parseDouble` (read; None for a NumberFormatException). */
  datatype DoubleCodec = DoubleCodec(show: real -> string, read: string -> Option<real>)

  /**
   * What the format relies on about the number text: reading gives back the number
   * written, and the text is non-empty and free of the two separators.
   */
  ghost predicate Faithful(c: DoubleCodec)
  {
    forall r: real :: c.read(c.show(r)) == Some(r) && |c.show(r)| > 0 && ';' !in c.show(r) && '\n' !in c.show(r)
  }

  lemma FaithfulAt(c: DoubleCodec, r: real)
    requires Faithful(c)
    ensures c.read(c.show(r)) == Some(r) && |c.show(r)| > 0 && ';' !in c.show(r) && '\n' !in c.show(r)
  {
  }

  // ---------------------------------------------------------------------------
  // Joining pieces with a separator.

  /** The pieces with `sep` between consecutive ones. */
  function Joined(parts: seq<string>, sep: char): (s: string)
    requires |parts| > 0
    ensures |s| >= |parts[0]|
  {
    if |parts| == 1 then parts[0] else parts[0] + [sep] + Joined(parts[1..], sep)
  }

  /** Every piece followed by `sep`. */
  function Terminated(parts: seq<string>, sep: char): (s: string)
    ensures |parts| > 0 ==> |s| > 0
  {
    if |parts| == 0 then "" else parts[0] + [sep] + Terminated(parts[1..], sep)
  }

  /** No piece contains `ch`. */
  predicate Free(parts: seq<string>, ch: char)
  {
    forall i :: 0 <= i < |parts| ==> ch !in parts[i]
  }

  lemma {:induction false} JoinedFree(parts: seq<string>, sep: char, ch: char)
    requires |parts| > 0 && Free(parts, ch) && ch != sep
    ensures ch !in Joined(parts, sep)
  {
    if |parts| > 1 {
      JoinedFree(parts[1..], sep, ch);
    }
  }

  lemma {:induction false} TerminatedFree(parts: seq<string>, sep: char, ch: char)
    requires Free(parts, ch) && ch != sep
    ensures ch !in Terminated(parts, sep)
  {
    if |parts| > 0 {
      TerminatedFree(parts[1..], sep, ch);
    }
  }

  /** Appending one piece: the form in which `toString` builds its text. */
  lemma {:induction false} JoinedSnoc(parts: seq<string>, x: string, sep: char)
    requires |parts| > 0
    ensures Joined(parts + [x], sep) == Joined(parts, sep) + [sep] + x
  {
    if |parts| > 1 {
      JoinedSnoc(parts[1..], x, sep);
      assert (parts + [x])[1..] == parts[1..] + [x];
    }
  }

  lemma {:induction false} TerminatedSnoc(parts: seq<string>, x: string, sep: char)
    ensures Terminated(parts + [x], sep) == Terminated(parts, sep) + x + [sep]
  {
    if |parts| == 0 {
      assert parts + [x] == [x];
    } else {
      TerminatedSnoc(parts[1..], x, sep);
      assert (parts + [x])[1..] == parts[1..] + [x];
    }
  }

  lemma {:induction false} SplitJoined(parts: seq<string>, sep: char)
    requires |parts| > 0 && Free(parts, sep)
    ensures SplitAll(Joined(parts, sep), sep) == parts
  {
    if |parts| == 1 {
      SplitAllNoSeparator(parts[0], sep);
    } else {
      SplitJoined(parts[1..], sep);
      SplitAllPrefix(parts[0], sep, Joined(parts[1..], sep));
      assert [parts[0]] + parts[1..] == parts;
    }
  }

  lemma {:induction false} SplitTerminated(parts: seq<string>, sep: char)
    requires Free(parts, sep)
    ensures SplitAll(Terminated(parts, sep), sep) == parts + [""]
  {
    if |parts| > 0 {
      SplitTerminated(parts[1..], sep);
      SplitAllPrefix(parts[0], sep, Terminated(parts[1..], sep));
      assert [parts[0]] + (parts[1..] + [""]) == parts + [""];
    }
  }

  /** `split` undoes joining, when no piece holds the separator and the last one is not empty. */
  lemma JavaSplitJoined(parts: seq<string>, sep: char)
    requires |parts| > 0 && Free(parts, sep) && parts[|parts| - 1] != ""
    ensures JavaSplit(Joined(parts, sep), sep) == parts
  {
    SplitJoined(parts, sep);
    if Joined(parts, sep) == "" {
      assert parts == [""];
    }
    DropTrailingEmptyKeeps(parts);
  }

  /** `split` undoes terminating: the trailing empty piece is dropped. */
  lemma JavaSplitTerminated(parts: seq<string>, sep: char)
    requires |parts| > 0 && Free(parts, sep) && parts[|parts| - 1] != ""
    ensures JavaSplit(Terminated(parts, sep), sep) == parts
  {
    SplitTerminated(parts, sep);
    DropTrailingEmptyOne(parts);
  }

  // ---------------------------------------------------------------------------
  // Writing (toString).

  function Shown(c: DoubleCodec, ws: seq<real>): (r: seq<string>)
    ensures |r| == |ws| && forall i :: 0 <= i < |ws| ==> r[i] == c.show(ws[i])
  {
    seq(|ws|, i requires 0 <= i < |ws| => c.show(ws[i]))
  }

  /** The fields of a neuron's line: the layer tag, the bias, then every weight. */
  function UnitFields(c: DoubleCodec, tag: string, u: UnitParams): seq<string>
  {
    [tag, c.show(u.bias)] + Shown(c, u.weights)
  }

  function UnitLine(c: DoubleCodec, tag: string, u: UnitParams): string
  {
    Joined(UnitFields(c, tag, u), ';')
  }

  function LayerLines(c: DoubleCodec, tag: string, units: seq<UnitParams>): (ls: seq<string>)
    ensures |ls| == |units| && forall j :: 0 <= j < |units| ==> ls[j] == UnitLine(c, tag, units[j])
  {
    seq(|units|, j requires 0 <= j < |units| => UnitLine(c, tag, units[j]))
  }

  /** The header: the layer sizes and the weight counts of the first neuron of each layer. */
  function Header(p: NetParams): string
    requires |p.hidden| > 0 && |p.output| > 0
  {
    Terminated([Decimal(|p.hidden|), Decimal(|p.output|),
                Decimal(|p.hidden[0].weights|), Decimal(|p.output[0].weights|)], ';')
  }

  function Lines(c: DoubleCodec, p: NetParams): (ls: seq<string>)
    requires |p.hidden| > 0 && |p.output| > 0
    ensures |ls| == 1 + |p.hidden| + |p.output|
  {
    [Header(p)] + LayerLines(c, "1", p.hidden) + LayerLines(c, "2", p.output)
  }

  /**
   * `toString`: the header reads the first neuron of each layer, so a network with an
   * empty layer ends in an ArrayIndexOutOfBoundsException.
   */
  function Serialize(c: DoubleCodec, p: NetParams): (r: Result<string, Excecao>)
    ensures r.Err? <==> |p.hidden| == 0 || |p.output| == 0
    ensures r.Err? ==> r.error == IndexOutOfBounds
    ensures Faithful(c) && Writable(p) ==> r.Ok? && JavaSplit(r.value, '\n') == Lines(c, p)
  {
    assert Faithful(c) && Writable(p) ==> JavaSplit(Terminated(Lines(c, p), '\n'), '\n') == Lines(c, p) by {
      if Faithful(c) && Writable(p) {
        LinesFree(c, p);
        JavaSplitTerminated(Lines(c, p), '\n');
      }
    }
    if |p.hidden| == 0 || |p.output| == 0 then Err(IndexOutOfBounds)
    else Ok(Terminated(Lines(c, p), '\n'))
  }

  // ---------------------------------------------------------------------------
  // What the matrix constructor builds.

  /**
   * What `new Rede(camadaEscondida, camadaSaida, viesEscondida, viesSaida)` demands of a
   * layer: a bias per row, and every row at least as long as the first one, whose
   * length is the number of weights given to every neuron.
   */
  predicate RowsFit(rows: seq<seq<real>>, vies: seq<real>)
  {
    |rows| <= |vies| && forall p :: 0 <= p < |rows| ==> |rows[0]| <= |rows[p]|
  }

  /** The neurons built from the rows: bias `vies[p]` and the first |rows[0]| entries of row p. */
  function LayerFromRows(rows: seq<seq<real>>, vies: seq<real>): (units: seq<UnitParams>)
    requires RowsFit(rows, vies)
    ensures |units| == |rows|
    ensures forall p :: 0 <= p < |rows| ==> units[p] == UnitParams(vies[p], rows[p][..|rows[0]|])
  {
    seq(|rows|, p requires 0 <= p < |rows| => UnitParams(vies[p], rows[p][..|rows[0]|]))
  }

  /** The four arrays `fromString` hands to the matrix constructor. */
  datatype Matrizes = Matrizes(escondida: seq<seq<real>>, saida: seq<seq<real>>,
                               viesEscondida: seq<real>, viesSaida: seq<real>)

  predicate Fits(m: Matrizes)
  {
    RowsFit(m.escondida, m.viesEscondida) && RowsFit(m.saida, m.viesSaida)
  }

  function Built(m: Matrizes): NetParams
    requires Fits(m)
  {
    NetParams(LayerFromRows(m.escondida, m.viesEscondida), LayerFromRows(m.saida, m.viesSaida))
  }

  // ---------------------------------------------------------------------------
  // Reading (fromString).

  /** A layer as `fromString` fills it: weight rows, biases, and the index of the next neuron line. */
  datatype Camada = Camada(rows: seq<seq<real>>, vies: seq<real>, next: nat)

  /** A row and a bias per neuron, every row `width` long. */
  predicate Rect(l: Camada, width: nat)
  {
    |l.rows| == |l.vies| && forall p :: 0 <= p < |l.rows| ==> |l.rows[p]| == width
  }

  /** `new double[n][width]` and `new double[n]`: everything zero, no line read yet. */
  function Empty(n: nat, width: nat): (l: Camada)
    ensures Rect(l, width)
  {
    Camada(seq(n, _ => Zeros(width)), Zeros(n), 0)
  }

  /** `t[i]`, or the exception an index past the end raises. */
  function Field(t: seq<string>, i: nat): Result<string, Excecao>
  {
    if i < |t| then Ok(t[i]) else Err(IndexOutOfBounds)
  }

  function ParseInt(s: string): (r: Result<int, Excecao>)
    ensures r.Ok? ==> r.value <= MaxInt
  {
    match ParseJavaInt(s)
    case Some(v) => Ok(v)
    case None => Err(NumberFormat)
  }

  function ParseReal(c: DoubleCodec, s: string): Result<real, Excecao>
  {
    match c.read(s)
    case Some(v) => Ok(v)
    case None => Err(NumberFormat)
  }

  /**
   * `new double[parseInt(t[i])][parseInt(t[j])]`: both sizes are fetched and parsed,
   * left to right, before either is checked for being negative.
   */
  function Dims(t: seq<string>, i: nat, j: nat): (r: Result<(nat, nat), Excecao>)
    ensures r.Ok? ==> r.value.0 <= MaxInt && r.value.1 <= MaxInt
  {
    var a :- Field(t, i);
    var n :- ParseInt(a);
    var b :- Field(t, j);
    var m :- ParseInt(b);
    if n < 0 || m < 0 then Err(NegativeArraySize) else Ok((n, m))
  }

  /**
   * The weight loop of a neuron line: field j goes to slot j - 2 of the row; each
   * field is parsed before its slot is checked against the row's length.
   */
  function FillRow(c: DoubleCodec, f: seq<string>, j: nat, row: seq<real>): (r: Result<seq<real>, Excecao>)
    requires 2 <= j
    ensures r.Ok? ==> |r.value| == |row|
    decreases |f| - j
  {
    if j >= |f| then Ok(row)
    else
      var v :- ParseReal(c, f[j]);
      if j - 2 >= |row| then Err(IndexOutOfBounds) else FillRow(c, f, j + 1, row[j - 2 := v])
  }

  /**
   * A neuron line of the layer `l`: the bias from field 1 goes to the next free slot,
   * then the weights to the next row.  A line past the layer's size is an
   * ArrayIndexOutOfBoundsException raised after its bias has been parsed.
   */
  function Fill(c: DoubleCodec, f: seq<string>, l: Camada): (r: Result<Camada, Excecao>)
    requires |l.rows| == |l.vies|
    ensures r.Ok? ==> |r.value.rows| == |l.rows|
    ensures r.Ok? ==> forall w: nat :: Rect(l, w) ==> Rect(r.value, w)
  {
    var b :- Field(f, 1);
    var v :- ParseReal(c, b);
    if l.next >= |l.vies| then Err(IndexOutOfBounds)
    else
      var row :- FillRow(c, f, 2, l.rows[l.next]);
      Ok(Camada(l.rows[l.next := row], l.vies[l.next := v], l.next + 1))
  }

  /** One line after the header: tag 1 feeds the hidden layer, tag 2 the output layer, any other tag nothing. */
  function ParseLine(c: DoubleCodec, line: string, h: Camada, o: Camada): (r: Result<(Camada, Camada), Excecao>)
    requires |h.rows| == |h.vies| && |o.rows| == |o.vies|
    ensures r.Ok? ==> |r.value.0.rows| == |h.rows| && |r.value.1.rows| == |o.rows|
    ensures r.Ok? ==> forall w: nat :: Rect(h, w) ==> Rect(r.value.0, w)
    ensures r.Ok? ==> forall w: nat :: Rect(o, w) ==> Rect(r.value.1, w)
  {
    var f := JavaSplit(line, ';');
    if |f| == 0 then Err(IndexOutOfBounds)
    else if f[0] == "1" then
      var h' :- Fill(c, f, h);
      Ok((h', o))
    else if f[0] == "2" then
      var o' :- Fill(c, f, o);
      Ok((h, o'))
    else Ok((h, o))
  }

  /** Lines i.. of the text, in order. */
  function ParseLines(c: DoubleCodec, ls: seq<string>, i: nat, h: Camada, o: Camada): (r: Result<(Camada, Camada), Excecao>)
    requires |h.rows| == |h.vies| && |o.rows| == |o.vies|
    ensures r.Ok? ==> |r.value.0.rows| == |h.rows| && |r.value.1.rows| == |o.rows|
    ensures r.Ok? ==> forall w: nat :: Rect(h, w) ==> Rect(r.value.0, w)
    ensures r.Ok? ==> forall w: nat :: Rect(o, w) ==> Rect(r.value.1, w)
    decreases |ls| - i
  {
    if i >= |ls| then Ok((h, o))
    else
      var r :- ParseLine(c, ls[i], h, o);
      ParseLines(c, ls, i + 1, r.0, r.1)
  }

  /**
   * `fromString` up to the constructor call: split into lines, size the four arrays
   * from the header, then fill them from the remaining lines.
   */
  function Parse(c: DoubleCodec, s: string): (r: Result<Matrizes, Excecao>)
    ensures r.Ok? ==> Fits(r.value)
    ensures r.Ok? ==> |r.value.escondida| <= MaxInt && |r.value.saida| <= MaxInt
    ensures r.Ok? ==> forall p :: 0 <= p < |r.value.escondida| ==> |r.value.escondida[p]| == |r.value.escondida[0]| <= MaxInt
    ensures r.Ok? ==> forall p :: 0 <= p < |r.value.saida| ==> |r.value.saida[p]| == |r.value.saida[0]| <= MaxInt
  {
    var ls := JavaSplit(s, '\n');
    var l0 :- Field(ls, 0);
    var t := JavaSplit(l0, ';');
    var hi :- Dims(t, 0, 2);
    var ow :- Dims(t, 1, 3);
    var r :- ParseLines(c, ls, 1, Empty(hi.0, hi.1), Empty(ow.0, ow.1));
    assert Rect(r.0, hi.1) && Rect(r.1, ow.1);
    Ok(Matrizes(r.0.rows, r.1.rows, r.0.vies, r.1.vies))
  }

  // ---------------------------------------------------------------------------
  // Properties of the format.

  /** Only the part of the text from line i on matters to the rest of the parse. */
  lemma {:induction false} ParseLinesSuffix(c: DoubleCodec, xs: seq<string>, a: nat, ys: seq<string>, b: nat, h: Camada, o: Camada)
    requires a <= |xs| && b <= |ys| && xs[a..] == ys[b..]
    requires |h.rows| == |h.vies| && |o.rows| == |o.vies|
    ensures ParseLines(c, xs, a, h, o) == ParseLines(c, ys, b, h, o)
    decreases |xs| - a
  {
    if a < |xs| {
      assert xs[a] == xs[a..][0] == ys[b..][0] == ys[b];
      var r := ParseLine(c, xs[a], h, o);
      if r.Ok? {
        assert xs[a + 1..] == xs[a..][1..] == ys[b..][1..] == ys[b + 1..];
        ParseLinesSuffix(c, xs, a + 1, ys, b + 1, r.value.0, r.value.1);
      }
    } else {
      assert |ys[b..]| == 0;
    }
  }

  /** A line whose first field is neither 1 nor 2 can be inserted anywhere after the header without effect. */
  lemma {:induction false} IgnoredLine(c: DoubleCodec, ls: seq<string>, i: nat, k: nat, junk: string, h: Camada, o: Camada)
    requires i <= k <= |ls|
    requires |h.rows| == |h.vies| && |o.rows| == |o.vies|
    requires |JavaSplit(junk, ';')| > 0 && JavaSplit(junk, ';')[0] != "1" && JavaSplit(junk, ';')[0] != "2"
    ensures ParseLines(c, ls[..k] + [junk] + ls[k..], i, h, o) == ParseLines(c, ls, i, h, o)
    decreases k - i
  {
    var xs := ls[..k] + [junk] + ls[k..];
    if i == k {
      assert xs[i] == junk;
      assert ParseLine(c, junk, h, o) == Ok((h, o));
      assert xs[i + 1..] == ls[i..];
      ParseLinesSuffix(c, xs, i + 1, ls, i, h, o);
    } else {
      assert xs[i] == ls[i];
      var r := ParseLine(c, ls[i], h, o);
      if r.Ok? {
        IgnoredLine(c, ls, i + 1, k, junk, r.value.0, r.value.1);
      }
    }
  }

  /** The layer after `j` of its neuron lines have been read. */
  function Partial(units: seq<UnitParams>, width: nat, j: nat): Camada
  {
    Camada(seq(|units|, p requires 0 <= p < |units| => if p < j then units[p].weights else Zeros(width)),
           seq(|units|, p requires 0 <= p < |units| => if p < j then units[p].bias else 0.0),
           j)
  }

  lemma {:induction false} FillRowShown(c: DoubleCodec, f: seq<string>, ws: seq<real>, j: nat, row: seq<real>)
    requires Faithful(c)
    requires |f| == |ws| + 2 && forall i :: 0 <= i < |ws| ==> f[i + 2] == c.show(ws[i])
    requires 2 <= j <= |f| && |row| == |ws| && row[..j - 2] == ws[..j - 2]
    ensures FillRow(c, f, j, row) == Ok(ws)
    decreases |f| - j
  {
    if j == |f| {
      assert row == row[..j - 2] && ws == ws[..j - 2];
    } else {
      FaithfulAt(c, ws[j - 2]);
      var row' := row[j - 2 := ws[j - 2]];
      assert row'[..j - 1] == ws[..j - 1];
      FillRowShown(c, f, ws, j + 1, row');
    }
  }

  /** The line written for a neuron splits back into the fields it was joined from. */
  lemma UnitLineSplits(c: DoubleCodec, tag: string, u: UnitParams)
    requires Faithful(c) && (tag == "1" || tag == "2")
    ensures JavaSplit(UnitLine(c, tag, u), ';') == UnitFields(c, tag, u)
  {
    var f := UnitFields(c, tag, u);
    assert Free(f, ';') by {
      forall i | 0 <= i < |f|
        ensures ';' !in f[i]
      {
        if i >= 2 {
          assert f[i] == c.show(u.weights[i - 2]);
          FaithfulAt(c, u.weights[i - 2]);
        } else if i == 1 {
          FaithfulAt(c, u.bias);
        }
      }
    }
    assert f[|f| - 1] != "" by {
      if |u.weights| > 0 {
        assert f[|f| - 1] == c.show(u.weights[|u.weights| - 1]);
        FaithfulAt(c, u.weights[|u.weights| - 1]);
      } else {
        FaithfulAt(c, u.bias);
      }
    }
    JavaSplitJoined(f, ';');
  }

  /** The fields of a neuron, read into a layer with a free slot, put its bias and weights in that slot. */
  lemma FillFields(c: DoubleCodec, tag: string, u: UnitParams, l: Camada)
    requires Faithful(c) && |l.rows| == |l.vies| && l.next < |l.vies| && |l.rows[l.next]| == |u.weights|
    ensures Fill(c, UnitFields(c, tag, u), l) == Ok(Camada(l.rows[l.next := u.weights], l.vies[l.next := u.bias], l.next + 1))
  {
    var f := UnitFields(c, tag, u);
    FaithfulAt(c, u.bias);
    assert ParseReal(c, f[1]) == Ok(u.bias);
    FillRowShown(c, f, u.weights, 2, l.rows[l.next]);
  }

  /** Reading the line written for neuron j of a layer fills exactly slot j of that layer. */
  lemma FillUnit(c: DoubleCodec, tag: string, units: seq<UnitParams>, width: nat, j: nat)
    requires Faithful(c) && (tag == "1" || tag == "2")
    requires j < |units| && forall q :: 0 <= q < |units| ==> |units[q].weights| == width
    ensures JavaSplit(UnitLine(c, tag, units[j]), ';') == UnitFields(c, tag, units[j])
    ensures Fill(c, UnitFields(c, tag, units[j]), Partial(units, width, j)) == Ok(Partial(units, width, j + 1))
  {
    UnitLineSplits(c, tag, units[j]);
    var l := Partial(units, width, j);
    assert l.rows[j] == Zeros(width);
    FillFields(c, tag, units[j], l);
    assert l.rows[j := units[j].weights] == Partial(units, width, j + 1).rows;
    assert l.vies[j := units[j].bias] == Partial(units, width, j + 1).vies;
  }

  /** The hidden neuron lines, read in order, fill the hidden layer and leave the output layer alone. */
  lemma {:induction false} ReadHidden(c: DoubleCodec, ls: seq<string>, start: nat, units: seq<UnitParams>, width: nat, j: nat, o: Camada)
    requires Faithful(c) && j <= |units| && start + |units| <= |ls|
    requires forall q :: 0 <= q < |units| ==> |units[q].weights| == width
    requires forall q :: 0 <= q < |units| ==> ls[start + q] == UnitLine(c, "1", units[q])
    requires |o.rows| == |o.vies|
    ensures ParseLines(c, ls, start + j, Partial(units, width, j), o)
         == ParseLines(c, ls, start + |units|, Partial(units, width, |units|), o)
    decreases |units| - j
  {
    if j < |units| {
      FillUnit(c, "1", units, width, j);
      ReadHidden(c, ls, start, units, width, j + 1, o);
    }
  }

  /** The output neuron lines, read in order, fill the output layer and leave the hidden layer alone. */
  lemma {:induction false} ReadOutput(c: DoubleCodec, ls: seq<string>, start: nat, units: seq<UnitParams>, width: nat, j: nat, h: Camada)
    requires Faithful(c) && j <= |units| && start + |units| <= |ls|
    requires forall q :: 0 <= q < |units| ==> |units[q].weights| == width
    requires forall q :: 0 <= q < |units| ==> ls[start + q] == UnitLine(c, "2", units[q])
    requires |h.rows| == |h.vies|
    ensures ParseLines(c, ls, start + j, h, Partial(units, width, j))
         == ParseLines(c, ls, start + |units|, h, Partial(units, width, |units|))
    decreases |units| - j
  {
    if j < |units| {
      FillUnit(c, "2", units, width, j);
      ReadOutput(c, ls, start, units, width, j + 1, h);
    }
  }

  /** What a network must be for its text to exist and be read back: non-empty layers of uniform width, `int` sizes. */
  predicate Writable(p: NetParams)
  {
    |p.hidden| > 0 && |p.output| > 0 && Uniform(p.hidden) && Uniform(p.output) &&
    |p.hidden| <= MaxInt && |p.output| <= MaxInt &&
    |p.hidden[0].weights| <= MaxInt && |p.output[0].weights| <= MaxInt
  }

  /** The line written for a neuron holds no line break and is not empty. */
  lemma UnitLineFree(c: DoubleCodec, tag: string, u: UnitParams)
    requires Faithful(c) && '\n' !in tag
    ensures '\n' !in UnitLine(c, tag, u) && UnitLine(c, tag, u) != ""
  {
    var f := UnitFields(c, tag, u);
    assert Free(f, '\n') by {
      forall q | 0 <= q < |f|
        ensures '\n' !in f[q]
      {
        if q >= 2 {
          assert f[q] == c.show(u.weights[q - 2]);
          FaithfulAt(c, u.weights[q - 2]);
        } else if q == 1 {
          FaithfulAt(c, u.bias);
        }
      }
    }
    JoinedFree(f, ';', '\n');
  }

  /** No line written for a layer holds a line break. */
  lemma LayerLinesFree(c: DoubleCodec, tag: string, units: seq<UnitParams>)
    requires Faithful(c) && '\n' !in tag
    ensures Free(LayerLines(c, tag, units), '\n')
  {
    forall j | 0 <= j < |units|
      ensures '\n' !in LayerLines(c, tag, units)[j]
    {
      UnitLineFree(c, tag, units[j]);
    }
  }

  lemma LinesFree(c: DoubleCodec, p: NetParams)
    requires Faithful(c) && Writable(p)
    ensures Free(Lines(c, p), '\n') && Lines(c, p)[|Lines(c, p)| - 1] != ""
  {
    TerminatedFree([Decimal(|p.hidden|), Decimal(|p.output|),
                    Decimal(|p.hidden[0].weights|), Decimal(|p.output[0].weights|)], ';', '\n');
    LayerLinesFree(c, "1", p.hidden);
    LayerLinesFree(c, "2", p.output);
    UnitLineFree(c, "2", p.output[|p.output| - 1]);
  }

  /** The header line splits into the four sizes, which parse back as written. */
  lemma ReadHeader(p: NetParams)
    requires Writable(p)
    ensures Dims(JavaSplit(Header(p), ';'), 0, 2) == Ok((|p.hidden|, |p.hidden[0].weights|))
    ensures Dims(JavaSplit(Header(p), ';'), 1, 3) == Ok((|p.output|, |p.output[0].weights|))
  {
    var t := [Decimal(|p.hidden|), Decimal(|p.output|), Decimal(|p.hidden[0].weights|), Decimal(|p.output[0].weights|)];
    JavaSplitTerminated(t, ';');
    ParseDecimal(|p.hidden|);
    ParseDecimal(|p.output|);
    ParseDecimal(|p.hidden[0].weights|);
    ParseDecimal(|p.output[0].weights|);
  }

  /** The neuron lines fill both layers completely. */
  lemma ReadBody(c: DoubleCodec, p: NetParams)
    requires Faithful(c) && Writable(p)
    ensures ParseLines(c, Lines(c, p), 1, Empty(|p.hidden|, |p.hidden[0].weights|), Empty(|p.output|, |p.output[0].weights|))
         == Ok((Partial(p.hidden, |p.hidden[0].weights|, |p.hidden|), Partial(p.output, |p.output[0].weights|, |p.output|)))
  {
    var ls := Lines(c, p);
    var h, o, wh, wo := |p.hidden|, |p.output|, |p.hidden[0].weights|, |p.output[0].weights|;
    assert Empty(h, wh) == Partial(p.hidden, wh, 0);
    assert Empty(o, wo) == Partial(p.output, wo, 0);
    ReadHidden(c, ls, 1, p.hidden, wh, 0, Partial(p.output, wo, 0));
    ReadOutput(c, ls, 1 + h, p.output, wo, 0, Partial(p.hidden, wh, h));
  }

  /** A layer read in full, handed to the matrix constructor, gives back the neurons it was written from. */
  lemma BuiltFull(units: seq<UnitParams>, width: nat)
    requires |units| > 0 && Uniform(units) && width == |units[0].weights|
    ensures RowsFit(Partial(units, width, |units|).rows, Partial(units, width, |units|).vies)
    ensures LayerFromRows(Partial(units, width, |units|).rows, Partial(units, width, |units|).vies) == units
  {
    var l := Partial(units, width, |units|);
    var built := LayerFromRows(l.rows, l.vies);
    forall q | 0 <= q < |units|
      ensures built[q] == units[q]
    {
      assert l.rows[q] == units[q].weights;
      assert l.rows[q][..width] == units[q].weights;
    }
  }

  /**
   * `fromString(toString(n))` gives back `n`: the same layer sizes and every bias and
   * weight in place, for every network of uniform width with non-empty layers.
   */
  lemma RoundTrip(c: DoubleCodec, p: NetParams)
    requires Faithful(c) && Writable(p)
    ensures Serialize(c, p).Ok?
    ensures Parse(c, Serialize(c, p).value).Ok?
    ensures Built(Parse(c, Serialize(c, p).value).value) == p
  {
    var s := Serialize(c, p).value;
    var ls := Lines(c, p);
    LinesFree(c, p);
    JavaSplitTerminated(ls, '\n');
    ReadHeader(p);
    ReadBody(c, p);
    var hf, of := Partial(p.hidden, |p.hidden[0].weights|, |p.hidden|), Partial(p.output, |p.output[0].weights|, |p.output|);
    var m := Matrizes(hf.rows, of.rows, hf.vies, of.vies);
    assert Parse(c, s) == Ok(m);
    BuiltFull(p.hidden, |p.hidden[0].weights|);
    BuiltFull(p.output, |p.output[0].weights|);
  }
}
