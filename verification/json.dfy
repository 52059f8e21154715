/**
 * `JsonObjectBuffer`: cuts a stream of JSON tokens into top-level objects by
 * counting object and array depth.
 */
module JsonObjects {
  import opened Bytes

  /** The tokens of a non-blocking JSON parser; every other token is `Other`. */
  datatype Token = StartObject | EndObject | StartArray | EndArray | Other(text: string)

  /** A JSON value, for stating what a well-formed token stream contains (field names are `Scalar`s). */
  datatype Json = Object(members: seq<Json>) | Array(items: seq<Json>) | Scalar(text: string)

  function Tokens(j: Json): seq<Token>
    decreases j, 1
  {
    match j
    case Scalar(t) => [Other(t)]
    case Object(ms) => [StartObject] + TokensOf(ms) + [EndObject]
    case Array(xs) => [StartArray] + TokensOf(xs) + [EndArray]
  }

  function TokensOf(js: seq<Json>): seq<Token>
    decreases js, 0
  {
    if js == [] then [] else Tokens(js[0]) + TokensOf(js[1..])
  }

  /** The three fields of the buffer. */
  datatype Counters = Counters(buffer: Option<seq<Token>>, objectDepth: int, arrayDepth: int)

  /** `buffer?.copyCurrentEvent(p)`. */
  function Copy(buffer: Option<seq<Token>>, t: Token): Option<seq<Token>>
  {
    match buffer
    case None => None
    case Some(b) => Some(b + [t])
  }

  /** `processEvent` on the state `c`: the new state and the buffer it returns, if any. */
  function Step(c: Counters, t: Token): (Counters, Option<seq<Token>>)
  {
    match t
    case StartObject =>
      var b := if c.buffer.Some? then c.buffer.value else [];
      var od := if c.buffer.Some? then c.objectDepth else -1;
      var ad := if c.buffer.Some? then c.arrayDepth else 0;
      (Counters(Some(b + [t]), od + 1, ad), None)
    case EndObject =>
      var b := Copy(c.buffer, t);
      if c.objectDepth == 0 && c.arrayDepth == 0 then (Counters(None, c.objectDepth - 1, c.arrayDepth), b)
      else (Counters(b, c.objectDepth - 1, c.arrayDepth), None)
    case StartArray => (Counters(Copy(c.buffer, t), c.objectDepth, c.arrayDepth + 1), None)
    case EndArray => (Counters(Copy(c.buffer, t), c.objectDepth, c.arrayDepth - 1), None)
    case Other(_) => (Counters(Copy(c.buffer, t), c.objectDepth, c.arrayDepth), None)
  }

  /** Feeding `ts` one by one: the final state and the buffers returned, in order. */
  function Run(c: Counters, ts: seq<Token>): (Counters, seq<seq<Token>>)
    decreases |ts|
  {
    if ts == [] then (c, [])
    else
      var s := Step(c, ts[0]);
      var r := Run(s.0, ts[1..]);
      (r.0, (if s.1.Some? then [s.1.value] else []) + r.1)
  }

  class JsonObjectBuffer {
    var buffer: Option<seq<Token>>
    var objectDepth: int
    var arrayDepth: int

    function State(): Counters
      reads this
    {
      Counters(buffer, objectDepth, arrayDepth)
    }

    constructor()
      ensures State() == Counters(None, -1, 0)
    {
      buffer := None;
      objectDepth := -1;
      arrayDepth := 0;
    }

    /** `createBuffer`: a fresh buffer and reset depths. */
    method CreateBuffer()
      modifies this
      ensures State() == Counters(Some([]), -1, 0)
    {
      objectDepth := -1;
      arrayDepth := 0;
      buffer := Some([]);
    }

    /** `processEvent`. */
    method ProcessEvent(t: Token) returns (result: Option<seq<Token>>)
      modifies this
      ensures (State(), result) == Step(old(State()), t)
      ensures result.Some? <==> t == EndObject && old(buffer).Some? && old(objectDepth) == 0 && old(arrayDepth) == 0
      ensures result.Some? ==> buffer.None? && result.value == old(buffer).value + [EndObject]
    {
      result := None;
      match t {
        case StartObject =>
          if buffer.None? {
            CreateBuffer();
          }
          buffer := Copy(buffer, t);
          objectDepth := objectDepth + 1;
        case EndObject =>
          buffer := Copy(buffer, t);
          if objectDepth == 0 && arrayDepth == 0 {
            if buffer.Some? {
              result := buffer;
            }
            buffer := None;
          }
          objectDepth := objectDepth - 1;
        case StartArray =>
          buffer := Copy(buffer, t);
          arrayDepth := arrayDepth + 1;
        case EndArray =>
          buffer := Copy(buffer, t);
          arrayDepth := arrayDepth - 1;
        case Other(_) =>
          buffer := Copy(buffer, t);
      }
    }
  }

  lemma {:induction false} RunAppend(c: Counters, a: seq<Token>, b: seq<Token>)
    ensures Run(c, a + b) == (Run(Run(c, a).0, b).0, Run(c, a).1 + Run(Run(c, a).0, b).1)
    decreases |a|
  {
    if a != [] {
      assert (a + b)[0] == a[0] && (a + b)[1..] == a[1..] + b;
      var s := Step(c, a[0]);
      var e: seq<seq<Token>> := if s.1.Some? then [s.1.value] else [];
      RunAppend(s.0, a[1..], b);
      var ra := Run(s.0, a[1..]);
      var rb := Run(ra.0, b);
      assert Run(c, a) == (ra.0, e + ra.1);
      assert Run(c, a + b) == (rb.0, e + (ra.1 + rb.1));
      AppendAssoc(e, ra.1, rb.1);
    } else {
      assert a + b == b;
      assert Run(c, a) == (c, []);
      assert [] + Run(c, b).1 == Run(c, b).1;
    }
  }

  /** Feeding one token is one step. */
  lemma RunOne(c: Counters, t: Token)
    ensures Run(c, [t]) == (Step(c, t).0, if Step(c, t).1.Some? then [Step(c, t).1.value] else [])
  {
    assert [t][1..] == [];
    var s := Step(c, t);
    var e: seq<seq<Token>> := if s.1.Some? then [s.1.value] else [];
    assert Run(s.0, []) == (s.0, []);
    assert e + [] == e;
  }

  /**
   * Inside an open object, a complete value is copied into the buffer and
   * nothing is returned; the depths are as before.
   */
  lemma {:induction false} InsideValue(j: Json, b: seq<Token>, od: int, ad: int)
    requires od >= 0
    ensures Run(Counters(Some(b), od, ad), Tokens(j)) == (Counters(Some(b + Tokens(j)), od, ad), [])
    decreases j, 1
  {
    match j
    case Scalar(t) =>
      RunOne(Counters(Some(b), od, ad), Other(t));
    case Object(ms) =>
      InsideObject(ms, b, od, ad);
    case Array(xs) =>
      InsideArray(xs, b, od, ad);
  }

  lemma {:induction false} InsideObject(ms: seq<Json>, b: seq<Token>, od: int, ad: int)
    requires od >= 0
    ensures Run(Counters(Some(b), od, ad), Tokens(Object(ms))) == (Counters(Some(b + Tokens(Object(ms))), od, ad), [])
    decreases ms, 2
  {
    var open := b + [StartObject];
    var inner := open + TokensOf(ms);
    QuietStep(Counters(Some(b), od, ad), StartObject, Counters(Some(open), od + 1, ad));
    InsideValues(ms, open, od + 1, ad);
    RunQuiet(Counters(Some(b), od, ad), [StartObject], Counters(Some(open), od + 1, ad),
             TokensOf(ms), Counters(Some(inner), od + 1, ad));
    QuietStep(Counters(Some(inner), od + 1, ad), EndObject, Counters(Some(inner + [EndObject]), od, ad));
    RunQuiet(Counters(Some(b), od, ad), [StartObject] + TokensOf(ms), Counters(Some(inner), od + 1, ad),
             [EndObject], Counters(Some(inner + [EndObject]), od, ad));
    Wrapped(b, StartObject, TokensOf(ms), EndObject);
  }

  lemma {:induction false} InsideArray(xs: seq<Json>, b: seq<Token>, od: int, ad: int)
    requires od >= 0
    ensures Run(Counters(Some(b), od, ad), Tokens(Array(xs))) == (Counters(Some(b + Tokens(Array(xs))), od, ad), [])
    decreases xs, 2
  {
    var open := b + [StartArray];
    var inner := open + TokensOf(xs);
    QuietStep(Counters(Some(b), od, ad), StartArray, Counters(Some(open), od, ad + 1));
    InsideValues(xs, open, od, ad + 1);
    RunQuiet(Counters(Some(b), od, ad), [StartArray], Counters(Some(open), od, ad + 1),
             TokensOf(xs), Counters(Some(inner), od, ad + 1));
    QuietStep(Counters(Some(inner), od, ad + 1), EndArray, Counters(Some(inner + [EndArray]), od, ad));
    RunQuiet(Counters(Some(b), od, ad), [StartArray] + TokensOf(xs), Counters(Some(inner), od, ad + 1),
             [EndArray], Counters(Some(inner + [EndArray]), od, ad));
    Wrapped(b, StartArray, TokensOf(xs), EndArray);
  }

  lemma {:induction false} InsideValues(js: seq<Json>, b: seq<Token>, od: int, ad: int)
    requires od >= 0
    ensures Run(Counters(Some(b), od, ad), TokensOf(js)) == (Counters(Some(b + TokensOf(js)), od, ad), [])
    decreases js, 0
  {
    if js != [] {
      var first := b + Tokens(js[0]);
      InsideValue(js[0], b, od, ad);
      InsideValues(js[1..], first, od, ad);
      RunQuiet(Counters(Some(b), od, ad), Tokens(js[0]), Counters(Some(first), od, ad),
               TokensOf(js[1..]), Counters(Some(first + TokensOf(js[1..])), od, ad));
      assert first + TokensOf(js[1..]) == b + TokensOf(js);
    } else {
      assert b + [] == b;
    }
  }

  lemma Wrapped(b: seq<Token>, open: Token, m: seq<Token>, close: Token)
    ensures b + [open] + m + [close] == b + ([open] + m + [close])
  {
  }

  /** A step that returns nothing, as a run of one token. */
  lemma QuietStep(c: Counters, t: Token, c1: Counters)
    requires Step(c, t) == (c1, None)
    ensures Run(c, [t]) == (c1, [])
  {
    RunOne(c, t);
  }

  /** Two runs that return nothing, one after the other. */
  lemma RunQuiet(c: Counters, x: seq<Token>, c1: Counters, y: seq<Token>, c2: Counters)
    requires Run(c, x) == (c1, []) && Run(c1, y) == (c2, [])
    ensures Run(c, x + y) == (c2, [])
  {
    RunAppend(c, x, y);
  }

  /**
   * An object arriving without an open buffer is returned whole, token for
   * token, at its closing brace; the buffer is then gone and `objectDepth`
   * is back at -1.
   */
  lemma TopLevelObject(c: Counters, ms: seq<Json>)
    requires c.buffer.None?
    ensures Run(c, Tokens(Object(ms))) == (Counters(None, -1, 0), [Tokens(Object(ms))])
  {
    var c1 := Counters(Some([StartObject]), 0, 0);
    var inner := [StartObject] + TokensOf(ms);
    var c2 := Counters(Some(inner), 0, 0);
    assert [] + [StartObject] == [StartObject];
    QuietStep(c, StartObject, c1);
    InsideValues(ms, [StartObject], 0, 0);
    RunQuiet(c, [StartObject], c1, TokensOf(ms), c2);
    assert Step(c2, EndObject) == (Counters(None, -1, 0), Some(Tokens(Object(ms))));
    RunOne(c2, EndObject);
    RunAppend(c, inner, [EndObject]);
    assert Run(c, inner) == (c2, []);
    assert Tokens(Object(ms)) == inner + [EndObject];
    assert [] + [Tokens(Object(ms))] == [Tokens(Object(ms))];
  }

  predicate AllObjects(js: seq<Json>)
  {
    forall i :: 0 <= i < |js| ==> js[i].Object?
  }

  /** Objects one after another: each is returned, in order. */
  lemma {:induction false} TopLevelObjects(c: Counters, os: seq<Json>)
    requires c.buffer.None? && AllObjects(os)
    ensures Run(c, TokensOf(os)).0.buffer.None?
    ensures Run(c, TokensOf(os)).1 == seq(|os|, i requires 0 <= i < |os| => Tokens(os[i]))
    decreases |os|
  {
    if os != [] {
      TopLevelObject(c, os[0].members);
      RunAppend(c, Tokens(os[0]), TokensOf(os[1..]));
      TopLevelObjects(Counters(None, -1, 0), os[1..]);
    }
  }

  /** The elements of a top-level array of objects are returned, in order, and nothing else. */
  lemma TopLevelArray(c: Counters, os: seq<Json>)
    requires c.buffer.None? && AllObjects(os)
    ensures Run(c, Tokens(Array(os))).1 == seq(|os|, i requires 0 <= i < |os| => Tokens(os[i]))
  {
    var c1 := Counters(None, c.objectDepth, c.arrayDepth + 1);
    assert Step(c, StartArray) == (c1, None);
    RunAppend(c, [StartArray], TokensOf(os) + [EndArray]);
    RunAppend(c1, TokensOf(os), [EndArray]);
    TopLevelObjects(c1, os);
    assert [StartArray] + (TokensOf(os) + [EndArray]) == Tokens(Array(os));
  }
}
