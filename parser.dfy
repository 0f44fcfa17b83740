/** Conversion of text rows into rows of numbers, as the list comprehension
    `[[float(pp) for pp in p.split()] for p in rows]` does it. Floating-point
    values are not modelled: `numeric` says which tokens `float` accepts, and
    a converted value is recorded as the token it was read from. The
    comprehension runs row by row, token by token, and the first token
    `float` rejects raises the error that ends the conversion. */
module Parser {
  import opened Tokenizer

  /** The float that `float(literal)` returns, identified by its literal. */
  datatype Value = FloatOf(literal: string)

  /** The error `float` raises on a token it cannot read. */
  datatype ParseError = NotAFloat(token: string)

  datatype Result<T> = Success(value: T) | Failure(error: ParseError)

  type Row = seq<Value>
  type Table = seq<Row>

  /** `[float(pp) for pp in tokens]`: token by token, or the error of the
      first token that is not numeric. */
  function ConvertTokens(tokens: seq<string>, numeric: string -> bool): Result<Row>
  {
    if tokens == [] then Success([])
    else if !numeric(tokens[0]) then Failure(NotAFloat(tokens[0]))
    else
      match ConvertTokens(tokens[1..], numeric)
      case Failure(e) => Failure(e)
      case Success(vs) => Success([FloatOf(tokens[0])] + vs)
  }

  /** The tokens convert exactly when all of them are numeric; they then give
      one value per token, read from that token, in order, and otherwise the
      error names the first token that is not numeric. */
  lemma {:induction false} ConvertTokensMeaning(tokens: seq<string>, numeric: string -> bool)
    ensures var r := ConvertTokens(tokens, numeric);
            r.Success? <==> forall i :: 0 <= i < |tokens| ==> numeric(tokens[i])
    ensures var r := ConvertTokens(tokens, numeric);
            r.Success? ==> |r.value| == |tokens| && forall i :: 0 <= i < |tokens| ==> r.value[i] == FloatOf(tokens[i])
    ensures var r := ConvertTokens(tokens, numeric);
            r.Failure? ==> exists i :: 0 <= i < |tokens| && !numeric(tokens[i])
                                     && r.error == NotAFloat(tokens[i])
                                     && forall j :: 0 <= j < i ==> numeric(tokens[j])
    decreases |tokens|
  {
    if tokens != [] {
      var rest := tokens[1..];
      ConvertTokensMeaning(rest, numeric);
      assert forall j :: 0 < j < |tokens| ==> tokens[j] == rest[j - 1];
      var tail := ConvertTokens(rest, numeric);
      if numeric(tokens[0]) && tail.Failure? {
        var i :| 0 <= i < |rest| && !numeric(rest[i]) && tail.error == NotAFloat(rest[i])
                 && forall j :: 0 <= j < i ==> numeric(rest[j]);
        assert !numeric(tokens[i + 1]) && tail.error == NotAFloat(tokens[i + 1]);
      }
    }
  }

  /** One text row converted: its whitespace-separated tokens, each read as
      a float. */
  function ParseRow(line: string, numeric: string -> bool): Result<Row>
  {
    ConvertTokens(Split(line), numeric)
  }

  /** Results of several conversions taken in order: every value, or the
      error of the first conversion that failed. */
  function Collect<T>(results: seq<Result<T>>): (r: Result<seq<T>>)
    ensures r.Success? <==> forall k :: 0 <= k < |results| ==> results[k].Success?
    ensures r.Success? ==> |r.value| == |results|
    ensures r.Success? ==> forall k :: 0 <= k < |results| ==> r.value[k] == results[k].value
    ensures r.Failure? ==> exists k :: 0 <= k < |results| && results[k] == Failure(r.error)
                                    && forall j :: 0 <= j < k ==> results[j].Success?
  {
    if results == [] then Success([])
    else
      var front := results[..|results| - 1];
      assert forall k :: 0 <= k < |front| ==> front[k] == results[k];
      match Collect(front)
      case Failure(e) => Failure(e)
      case Success(values) =>
        match results[|results| - 1]
        case Failure(e) => Failure(e)
        case Success(v) => Success(values + [v])
  }

  /** Once a conversion has failed, the conversions after it change nothing. */
  lemma {:induction false} CollectFailureSticks<T>(results: seq<Result<T>>, i: nat)
    requires i <= |results| && Collect(results[..i]).Failure?
    ensures Collect(results) == Collect(results[..i])
    decreases |results| - i
  {
    if i < |results| {
      assert results[..i + 1][..i] == results[..i];
      CollectFailureSticks(results, i + 1);
    } else {
      assert results[..i] == results;
    }
  }

  lemma CollectStep<T>(results: seq<Result<T>>, i: nat)
    requires i < |results|
    ensures Collect(results[..i + 1])
            == match Collect(results[..i])
               case Failure(e) => Failure(e)
               case Success(vs) =>
                 match results[i]
                 case Failure(e) => Failure(e)
                 case Success(v) => Success(vs + [v])
  {
    assert results[..i + 1][..i] == results[..i];
  }

  /** Every row of a chunk converted, row by row, or the error of the first
      row that fails. */
  function ParseRows(rows: seq<string>, numeric: string -> bool): Result<Table>
  {
    if rows == [] then Success([])
    else
      match ParseRow(rows[0], numeric)
      case Failure(e) => Failure(e)
      case Success(row) =>
        match ParseRows(rows[1..], numeric)
        case Failure(e) => Failure(e)
        case Success(tail) => Success([row] + tail)
  }

  /** A chunk converts exactly when each of its rows does; it then gives
      exactly one output row per input row, in order, and otherwise fails with
      the error of the first row that does not convert. */
  lemma {:induction false} ParseRowsMeaning(rows: seq<string>, numeric: string -> bool)
    ensures var r := ParseRows(rows, numeric);
            r.Success? <==> forall i :: 0 <= i < |rows| ==> ParseRow(rows[i], numeric).Success?
    ensures var r := ParseRows(rows, numeric);
            r.Success? ==> |r.value| == |rows|
                           && forall i :: 0 <= i < |rows| ==> r.value[i] == ParseRow(rows[i], numeric).value
    ensures var r := ParseRows(rows, numeric);
            r.Failure? ==> exists i :: 0 <= i < |rows| && ParseRow(rows[i], numeric) == Failure(r.error)
                                     && forall j :: 0 <= j < i ==> ParseRow(rows[j], numeric).Success?
    decreases |rows|
  {
    if rows != [] {
      var rest := rows[1..];
      ParseRowsMeaning(rest, numeric);
      assert forall j :: 0 < j < |rows| ==> rows[j] == rest[j - 1];
      var head, tail := ParseRow(rows[0], numeric), ParseRows(rest, numeric);
      if head.Failure? {
        assert ParseRows(rows, numeric) == Failure(head.error);
      } else if tail.Failure? {
        assert ParseRows(rows, numeric) == tail;
        var i :| 0 <= i < |rest| && ParseRow(rest[i], numeric) == Failure(tail.error)
                 && forall j :: 0 <= j < i ==> ParseRow(rest[j], numeric).Success?;
        assert ParseRow(rows[i + 1], numeric) == Failure(tail.error);
      } else {
        assert ParseRows(rows, numeric) == Success([head.value] + tail.value);
      }
    }
  }

  /** A row converts exactly when every token of it is numeric; it then gives
      one value per token, each read from that token, in the tokens' order,
      and no token is empty or holds whitespace. */
  lemma ParseRowMeaning(line: string, numeric: string -> bool)
    ensures var toks := Split(line);
            && (ParseRow(line, numeric).Success? <==> forall i :: 0 <= i < |toks| ==> numeric(toks[i]))
            && (ParseRow(line, numeric).Success? ==>
                  |ParseRow(line, numeric).value| == |toks|
                  && forall i :: 0 <= i < |toks| ==> ParseRow(line, numeric).value[i] == FloatOf(toks[i]))
            && (forall i :: 0 <= i < |toks| ==> IsWord(toks[i]))
  {
    ConvertTokensMeaning(Split(line), numeric);
  }

  /** A row written as numeric literals separated by single spaces, as in
      "1.0 2.5 -3.25", converts back into one value per literal, in order. */
  lemma ParseSpaceJoinedRow(words: seq<string>, numeric: string -> bool)
    requires forall i :: 0 <= i < |words| ==> IsWord(words[i]) && numeric(words[i])
    ensures ParseRow(JoinWithSpaces(words), numeric) == Success(seq(|words|, i requires 0 <= i < |words| => FloatOf(words[i])))
  {
    SplitJoinWithSpaces(words);
    ConvertNumericTokens(words, numeric);
  }

  /** Tokens that are all numeric convert to their values, in order. */
  lemma ConvertNumericTokens(tokens: seq<string>, numeric: string -> bool)
    requires forall i :: 0 <= i < |tokens| ==> numeric(tokens[i])
    ensures ConvertTokens(tokens, numeric) == Success(seq(|tokens|, i requires 0 <= i < |tokens| => FloatOf(tokens[i])))
  {
    ConvertTokensMeaning(tokens, numeric);
    var r := ConvertTokens(tokens, numeric);
    assert r.Success? && |r.value| == |tokens|;
    assert r.value == seq(|tokens|, i requires 0 <= i < |tokens| => FloatOf(tokens[i]));
  }

  /** A row with a token `float` rejects makes the whole chunk fail. */
  lemma BadTokenFailsChunk(rows: seq<string>, i: nat, k: nat, numeric: string -> bool)
    requires i < |rows| && k < |Split(rows[i])| && !numeric(Split(rows[i])[k])
    ensures ParseRows(rows, numeric).Failure?
    ensures !numeric(ParseRows(rows, numeric).error.token)
  {
    ParseRowsMeaning(rows, numeric);
    ConvertTokensMeaning(Split(rows[i]), numeric);
    var r := ParseRows(rows, numeric);
    if r.Failure? {
      var i' :| 0 <= i' < |rows| && ParseRow(rows[i'], numeric) == Failure(r.error);
      ConvertTokensMeaning(Split(rows[i']), numeric);
    }
  }
}
