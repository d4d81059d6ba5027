/** Whole runs of the parser: one call on a C string, and a connection fed in pieces and drained on the way. */
module Sessions {
  import opened Values
  import opened Machine
  import opened ShapeInvariant
  import opened Grammar
  import opened Parsing
  import opened Parser

  /** `json_parser_parse` */
  method JsonParserParse(buf: string) returns (obj: Option<Json>)
    requires '\0' !in buf
    ensures forall t :: obj == Some(t) <==> Parses(buf, t)
  {
    var jp := new JsonParser(Single);
    var all := buf + "\0";
    assert all[0..] == all && jp.Abs(all) == jp.Abs("") && jp.Valid(all);
    jp.Process(all);
    assert jp.Abs(all).delivered == jp.delivered;
    hide Run, Shape, Initial;
    ParseExact(buf, Null);
    assert |jp.delivered| <= 1;
    obj := if |jp.delivered| == 0 then None else Some(jp.delivered[0]);
    forall t
      ensures obj == Some(t) <==> Parses(buf, t)
    {
      ParseExact(buf, t);
      assert obj == Some(t) <==> jp.delivered == [t];
    }
  }

  function Joined(chunks: seq<string>): string {
    if chunks == [] then "" else Joined(chunks[..|chunks| - 1]) + chunks[|chunks| - 1]
  }

  lemma JoinedGrows(chunks: seq<string>, k: nat)
    requires k < |chunks|
    ensures Joined(chunks[..k + 1]) == Joined(chunks[..k]) + chunks[k]
  {
    assert chunks[..k + 1][..k] == chunks[..k];
  }

  /** May the returned prefix be thrown away? What a caller can check before it drains. */
  predicate MayDrain(jp: JsonParser)
    reads jp
  {
    !TokenOpen(jp.cs) || jp.readyForDrain == 0
  }

  /**
   A connection: each piece is appended to the buffer, the whole buffer is passed on, and after any piece the
   buffer may be drained. However the input is cut and whenever it is drained, state and callbacks are those
   of feeding everything at once.
   */
  method Connection(jp: JsonParser, chunks: seq<string>, drain: seq<bool>) returns (buf: string)
    requires jp.Valid("") && jp.off == 0 && |drain| == |chunks|
    modifies jp
    ensures jp.Valid(buf) && jp.Abs(buf) == Run(old(jp.Abs("")), Joined(chunks))
  {
    hide Shape, Run, Step;
    ghost var s0 := jp.Abs("");
    buf := "";
    RunNothing(s0);
    for k := 0 to |chunks|
      invariant jp.Valid(buf) && (jp.cs.At? ==> jp.off == |buf|)
      invariant jp.Abs(buf) == Run(s0, Joined(chunks[..k]))
    {
      var more := buf + chunks[k];
      LongerBuffer(jp, buf, chunks[k]);
      JoinedGrows(chunks, k);
      RunConcat(s0, Joined(chunks[..k]), chunks[k]);
      if jp.cs == Failed {
        FailedForever(jp.Abs(buf), chunks[k]);
        FailedForever(jp.Abs(buf), more[jp.off..]);
      } else {
        assert more[jp.off..] == chunks[k];
      }
      jp.Process(more);
      buf := more;
      if drain[k] && MayDrain(jp) {
        var n := jp.Drain(buf);
        buf := buf[n..];
      }
    }
    assert chunks[..|chunks|] == chunks;
  }

  /** Bytes beyond the current one do not matter to the state. */
  lemma LongerBuffer(jp: JsonParser, buf: string, more: string)
    requires jp.Valid(buf)
    ensures jp.Valid(buf + more) && jp.Abs(buf + more) == jp.Abs(buf)
  {
    assert TokenOpen(jp.cs) ==> (buf + more)[jp.pStart..jp.off] == buf[jp.pStart..jp.off];
  }

  /** What a connection delivers, in terms of the grammar alone. */
  method Stream(chunks: seq<string>, drain: seq<bool>) returns (values: seq<Json>, errors: nat)
    requires |drain| == |chunks|
    ensures exists vs :: DerivesStream(vs) && StreamText(vs) <= Joined(chunks) && values == Trees(vs)
    ensures forall vs :: DerivesStream(vs) && StreamText(vs) <= Joined(chunks) ==> Trees(vs) <= values
    ensures errors == if Viable(Joined(chunks)) then 0 else 1
  {
    var jp := new JsonParser(Main);
    var buf := Connection(jp, chunks, drain);
    values, errors := jp.delivered, jp.parseErrors;
    StreamExact(Joined(chunks));
    assert Run(Initial(Main), Joined(chunks)) == jp.Abs(buf);
  }
}
