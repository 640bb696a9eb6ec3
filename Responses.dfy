/**
 * `extract_response_text`: the reply text in the CLI's JSON response.
 * Python raises on a response that is not an object and on a list of parts
 * that are not all strings; those are `None` here.
 */
module Responses {
  import opened Wrappers
  import opened Text
  import opened Json

  /** What one content block contributes: a text block's `text` (or `""`), a bare string itself, nothing otherwise. */
  function BlockPart(block: Json): Option<Json> {
    match block
    case JObject(fields) =>
      if Lookup(fields, "type") == Some(JString("text")) then Some(GetOr(fields, "text", JString(""))) else None
    case JString(_) => Some(block)
    case _ => None
  }

  /** The parts the loop collects from `blocks`, in order. */
  function Parts(blocks: seq<Json>): (parts: seq<Json>)
    ensures |parts| <= |blocks|
  {
    if blocks == [] then []
    else
      var init := Parts(blocks[..|blocks| - 1]);
      match BlockPart(blocks[|blocks| - 1])
      case None => init
      case Some(p) => init + [p]
  }

  /** The parts are exactly what some block contributes. */
  lemma {:induction false} PartsMembers(blocks: seq<Json>)
    ensures forall p :: p in Parts(blocks) <==> exists b :: b in blocks && BlockPart(b) == Some(p)
    decreases |blocks|
  {
    if blocks != [] {
      var init := blocks[..|blocks| - 1];
      var last := blocks[|blocks| - 1];
      PartsMembers(init);
      assert blocks == init + [last];
      forall p | p in Parts(blocks) ensures exists b :: b in blocks && BlockPart(b) == Some(p) {
        if p !in Parts(init) {
          assert BlockPart(last) == Some(p);
        } else {
          var b :| b in init && BlockPart(b) == Some(p);
          assert b in blocks;
        }
      }
      forall p | exists b :: b in blocks && BlockPart(b) == Some(p) ensures p in Parts(blocks) {
        var b :| b in blocks && BlockPart(b) == Some(p);
        if b != last {
          assert b in init;
        }
      }
    }
  }

  predicate AllStrings(parts: seq<Json>) {
    forall i :: 0 <= i < |parts| ==> parts[i].JString?
  }

  function Strings(parts: seq<Json>): (ss: seq<string>)
    requires AllStrings(parts)
    ensures |ss| == |parts| && forall i :: 0 <= i < |parts| ==> parts[i] == JString(ss[i])
  {
    seq(|parts|, i requires 0 <= i < |parts| => parts[i].s)
  }

  /** `"\n".join(parts)`, which raises unless every part is a string. */
  function JoinLines(parts: seq<Json>): Option<string> {
    if AllStrings(parts) then Some(Join(Strings(parts), "\n")) else None
  }

  /** The reply text of a response. */
  function ResponseText(response: Json): (text: Option<string>)
    ensures text.Some? ==> response.JObject?
  {
    match response
    case JObject(fields) =>
      (match Lookup(fields, "error")
       case Some(e) => Some("Error: " + PyStr(e))
       case None =>
         (match GetOr(fields, "result", JString(""))
          case JString(s) => Some(s)
          case JArray(blocks) => JoinLines(Parts(blocks))
          case other => Some(PyStr(other))))
    case _ => None
  }

  /** The extraction loop: collect each block's part, then join them. */
  method ExtractResponseText(response: Json) returns (text: Option<string>)
    ensures text == ResponseText(response)
  {
    if !response.JObject? {
      return None;
    }
    var error := Lookup(response.fields, "error");
    if error.Some? {
      return Some("Error: " + PyStr(error.value));
    }
    var result := GetOr(response.fields, "result", JString(""));
    if result.JString? {
      return Some(result.s);
    }
    if result.JArray? {
      var blocks := result.items;
      var parts: seq<Json> := [];
      for i := 0 to |blocks|
        invariant parts == Parts(blocks[..i])
      {
        assert blocks[..i + 1][..i] == blocks[..i];
        var block := blocks[i];
        if block.JObject? && Lookup(block.fields, "type") == Some(JString("text")) {
          parts := parts + [GetOr(block.fields, "text", JString(""))];
        } else if block.JString? {
          parts := parts + [block];
        }
      }
      assert blocks[..|blocks|] == blocks;
      return JoinLines(parts);
    }
    return Some(PyStr(result));
  }

  /** Collecting parts distributes over concatenation of block lists. */
  lemma {:induction false} PartsAppend(a: seq<Json>, b: seq<Json>)
    ensures Parts(a + b) == Parts(a) + Parts(b)
    decreases |b|
  {
    if b == [] {
      assert a + b == a;
    } else {
      var b' := b[..|b| - 1];
      assert (a + b)[..|a + b| - 1] == a + b';
      assert (a + b)[|a + b| - 1] == b[|b| - 1];
      PartsAppend(a, b');
    }
  }

  /** A block that is neither a text block nor a string leaves the reply as it is, wherever it stands. */
  lemma SkippedBlock(before: seq<Json>, block: Json, after: seq<Json>)
    requires BlockPart(block).None?
    ensures Parts(before + [block] + after) == Parts(before + after)
  {
    PartsAppend(before + [block], after);
    PartsAppend(before, [block]);
    PartsAppend(before, after);
    assert Parts([block]) == [] by {
      assert [block][..0] == [];
    }
  }

  function TextBlock(t: string): Json {
    JObject([("type", JString("text")), ("text", JString(t))])
  }

  lemma TextBlockPart(t: string)
    ensures BlockPart(TextBlock(t)) == Some(JString(t))
  {
    LookupLast([("type", JString("text"))], "text", JString(t));
    assert Lookup(TextBlock(t).fields, "type") == Some(JString("text"));
  }

  lemma StringsSnoc(parts: seq<Json>, s: string)
    requires AllStrings(parts)
    ensures AllStrings(parts + [JString(s)]) && Strings(parts + [JString(s)]) == Strings(parts) + [s]
  {
  }

  /** A result made of text blocks is their texts, one per line. */
  lemma {:induction false} TextBlocksJoin(blocks: seq<Json>, texts: seq<string>)
    requires |blocks| == |texts| && forall i :: 0 <= i < |blocks| ==> blocks[i] == TextBlock(texts[i])
    ensures AllStrings(Parts(blocks)) && Strings(Parts(blocks)) == texts
    decreases |blocks|
  {
    if blocks != [] {
      var n := |blocks|;
      TextBlocksJoin(blocks[..n - 1], texts[..n - 1]);
      TextBlockPart(texts[n - 1]);
      StringsSnoc(Parts(blocks[..n - 1]), texts[n - 1]);
      assert texts == texts[..n - 1] + [texts[n - 1]];
    }
  }

  /** The reply of a response whose result is text blocks splits back into those texts at newlines. */
  lemma TextBlocksRoundTrip(blocks: seq<Json>, texts: seq<string>)
    requires |blocks| == |texts| >= 1 && forall i :: 0 <= i < |blocks| ==> blocks[i] == TextBlock(texts[i])
    requires forall i :: 0 <= i < |texts| ==> '\n' !in texts[i]
    ensures ResponseText(JObject([("result", JArray(blocks))])) == Some(Join(texts, "\n"))
    ensures Split(Join(texts, "\n"), '\n') == texts
  {
    assert ResponseText(JObject([("result", JArray(blocks))])) == Some(Join(texts, "\n")) by {
      var fields := [("result", JArray(blocks))];
      assert Lookup(fields, "error").None?;
      assert GetOr(fields, "result", JString("")) == JArray(blocks);
      TextBlocksJoin(blocks, texts);
    }
    assert Split(Join(texts, "\n"), '\n') == texts by {
      SplitJoin(texts, '\n');
    }
  }

  /** An error field decides the reply, whatever else the response holds. */
  lemma ErrorWins(fields: seq<(string, Json)>, message: string, more: seq<(string, Json)>)
    requires forall i :: 0 <= i < |more| ==> more[i].0 != "error"
    ensures ResponseText(JObject(fields + [("error", JString(message))] + more)) == Some("Error: " + message)
  {
    var all := fields + [("error", JString(message))] + more;
    LookupSkips(fields + [("error", JString(message))], more, "error");
    LookupLast(fields, "error", JString(message));
  }

  /** A string result is the reply verbatim when there is no error field. */
  lemma StringResultVerbatim(fields: seq<(string, Json)>, s: string)
    requires Lookup(fields, "error").None?
    ensures ResponseText(JObject(fields + [("result", JString(s))])) == Some(s)
  {
    LookupLast(fields, "result", JString(s));
    assert Lookup(fields + [("result", JString(s))], "error") == Lookup(fields, "error");
  }

  /** A response with neither an error nor a result replies with the empty text. */
  lemma MissingResultIsEmpty(fields: seq<(string, Json)>)
    requires Lookup(fields, "error").None? && Lookup(fields, "result").None?
    ensures ResponseText(JObject(fields)) == Some("")
  {
  }

  /** The reply to `{"result": "hello", "cost_usd": 0.0123}`. */
  lemma ExampleHello(r: Json)
    requires r == JObject([("result", JString("hello")), ("cost_usd", JFloat("0.0123"))])
    ensures ResponseText(r) == Some("hello")
  {
  }

  /** The reply to `{"error": "boom"}`. */
  lemma ExampleBoom(r: Json)
    requires r == JObject([("error", JString("boom"))])
    ensures ResponseText(r) == Some("Error: boom")
  {
    assert Lookup(r.fields, "error") == Some(JString("boom"));
    assert "Error: " + "boom" == "Error: boom";
  }

  /** A skipped block between a text block and a bare string leaves the two texts. */
  lemma MixedParts(a: string, other: Json, b: string)
    requires BlockPart(other).None?
    ensures Parts([TextBlock(a), other, JString(b)]) == [JString(a), JString(b)]
  {
    assert [TextBlock(a), other, JString(b)] == [TextBlock(a)] + [other] + [JString(b)];
    SkippedBlock([TextBlock(a)], other, [JString(b)]);
    assert [TextBlock(a)] + [JString(b)] == [TextBlock(a), JString(b)];
    TextBlockPart(a);
    assert [TextBlock(a), JString(b)][..1] == [TextBlock(a)];
    assert [TextBlock(a)][..0] == [];
  }

  /** The reply to a result of a text block, an image block and a bare string. */
  lemma ExampleMixed(r: Json)
    requires r == JObject([("result", JArray([TextBlock("a"), JObject([("type", JString("image"))]), JString("b")]))])
    ensures ResponseText(r) == Some("a\nb")
  {
    var items := r.fields[0].1.items;
    var parts := [JString("a"), JString("b")];
    assert Parts(items) == parts by {
      var image := JObject([("type", JString("image"))]);
      assert BlockPart(image).None? by {
        assert Lookup(image.fields, "type") == Some(JString("image"));
      }
      MixedParts("a", image, "b");
    }
    assert JoinLines(parts) == Some("a\nb") by {
      assert Strings(parts) == ["a", "b"];
      assert Join(["a", "b"], "\n") == "a" + "\n" + "b" == "a\nb";
    }
    assert Lookup(r.fields, "error").None?;
    assert GetOr(r.fields, "result", JString("")) == JArray(items);
  }

  /** The largest magnitude up to which every integer converts to a float exactly. */
  const ExactFloatInts: int := 0x20_0000_0000_0000

  /** What `format(cost, ".4f")` accepts: an integer, a boolean or a float. */
  predicate Numeric(v: Json) {
    v.JInt? || v.JBool? || v.JFloat?
  }

  /**
   * `f"{cost:.4f}"`. An integer that converts to a float exactly is printed with
   * four zero decimals, a boolean as 1 or 0; a float, or a larger integer, is
   * printed as `floatText`, since floating point is not modelled. A string, a
   * list or an object makes Python raise: `None`.
   */
  function FourDecimals(cost: Json, floatText: string): (text: Option<string>)
    ensures text.Some? <==> Numeric(cost)
    ensures cost.JInt? && -ExactFloatInts <= cost.i <= ExactFloatInts ==>
      text == Some(DecimalString(cost.i) + ".0000")
  {
    match cost
    case JInt(i) => Some(if -ExactFloatInts <= i <= ExactFloatInts then DecimalString(i) + ".0000" else floatText)
    case JBool(b) => Some(if b then "1.0000" else "0.0000")
    case JFloat(_) => Some(floatText)
    case _ => None
  }

  /**
   * `format_cost`: no annotation when `cost_usd` is absent or `null`, the
   * annotation for a number, and `None` where Python raises: on a `cost_usd`
   * that is not a number, and on a response that is not an object.
   */
  function FormatCost(response: Json, floatText: string): (info: Option<string>)
    ensures info.None? <==>
      (!response.JObject?
       || (Lookup(response.fields, "cost_usd").Some?
           && Lookup(response.fields, "cost_usd") != Some(JNull)
           && !Numeric(Lookup(response.fields, "cost_usd").value)))
    ensures info == Some("") <==>
      (response.JObject?
       && (Lookup(response.fields, "cost_usd").None? || Lookup(response.fields, "cost_usd") == Some(JNull)))
  {
    match response
    case JObject(fields) =>
      (match Lookup(fields, "cost_usd")
       case None => Some("")
       case Some(cost) =>
         if cost == JNull then Some("")
         else match FourDecimals(cost, floatText)
              case None => None
              case Some(t) => Some("\n[cost: $" + t + "]"))
    case _ => None
  }

  /** An integer cost is shown with four zero decimals, whatever a float would print as. */
  lemma IntegerCost(response: Json, floatText: string, n: int)
    requires response.JObject? && Lookup(response.fields, "cost_usd") == Some(JInt(n))
    requires -ExactFloatInts <= n <= ExactFloatInts
    ensures FormatCost(response, floatText) == Some("\n[cost: $" + DecimalString(n) + ".0000]")
  {
    assert FourDecimals(JInt(n), floatText) == Some(DecimalString(n) + ".0000");
    var d := DecimalString(n);
    assert "\n[cost: $" + (d + ".0000") + "]" == "\n[cost: $" + d + ".0000]";
  }

  /** A cost given as text, such as `"0.01"`, makes `format_cost` raise. */
  lemma TextCostRaises(response: Json, floatText: string)
    requires response.JObject? && Lookup(response.fields, "cost_usd").Some?
    requires Lookup(response.fields, "cost_usd").value.JString?
    ensures FormatCost(response, floatText).None?
  {
  }

  /** `{"result": "ok", "cost_usd": 5}` is annotated with "$5.0000". */
  lemma ExampleCost(response: Json, floatText: string)
    requires response == JObject([("result", JString("ok")), ("cost_usd", JInt(5))])
    ensures FormatCost(response, floatText) == Some("\n[cost: $5.0000]")
  {
    assert Lookup(response.fields, "cost_usd") == Some(JInt(5));
    IntegerCost(response, floatText, 5);
    assert DecimalString(5) == "5";
    assert "\n[cost: $" + "5" + ".0000]" == "\n[cost: $5.0000]";
  }
}
