/** Normalisation of a parsed response body into the reply the chat page
    shows: an error notice, the first truthy candidate field, or the whole
    body written out. */
module Reply {
  import opened Json

  /** Python's `a or b`: `a` when it is truthy, otherwise `b`. */
  function Or(a: Json, b: Json): Json
  {
    if Truthy(a) then a else b
  }

  /** `data.result`, consulted only when `data` is a mapping. */
  function NestedResult(body: map<string, Json>): Json
  {
    if "data" in body && body["data"].JObj? then Get(body["data"].fields, "result") else JNull
  }

  /** The last resort: the whole body as `str` writes it. */
  function Fallback(body: map<string, Json>): Json
  {
    JStr(Str(JObj(body)))
  }

  /** The reply for a response body, as the chat page computes it: an
      `error` key wins outright; otherwise the `or` chain over `response`,
      `output`, `result`, `data.result` and the written-out body. */
  function ExtractReply(body: map<string, Json>): (r: Json)
    ensures Truthy(r)
  {
    if "error" in body then JStr("Error: " + Str(body["error"]))
    else
      Or(Get(body, "response"),
      Or(Get(body, "output"),
      Or(Get(body, "result"),
      Or(NestedResult(body),
      Fallback(body)))))
  }

  /* ------------------------------------- the chain as an ordered list */

  /** The candidate fields in priority order. */
  function Candidates(body: map<string, Json>): (cs: seq<Json>)
    ensures |cs| == 4
  {
    [Get(body, "response"), Get(body, "output"), Get(body, "result"), NestedResult(body)]
  }

  /** The first truthy candidate, or `fallback` when none is. */
  function FirstTruthy(cs: seq<Json>, fallback: Json): Json
  {
    if |cs| == 0 then fallback
    else if Truthy(cs[0]) then cs[0]
    else FirstTruthy(cs[1..], fallback)
  }

  /** `i` is the first truthy position of `cs`. */
  predicate FirstTruthyAt(cs: seq<Json>, i: int)
  {
    0 <= i < |cs| && Truthy(cs[i]) && forall j :: 0 <= j < i ==> !Truthy(cs[j])
  }

  /** `FirstTruthy` returns the candidate at the first truthy position, and
      the fallback when no candidate is truthy. */
  lemma {:induction false} FirstTruthyPicksFirst(cs: seq<Json>, fallback: Json, i: int)
    ensures FirstTruthyAt(cs, i) ==> FirstTruthy(cs, fallback) == cs[i]
    ensures (forall j :: 0 <= j < |cs| ==> !Truthy(cs[j])) ==> FirstTruthy(cs, fallback) == fallback
    decreases |cs|
  {
    if |cs| > 0 && !Truthy(cs[0]) {
      FirstTruthyPicksFirst(cs[1..], fallback, i - 1);
      if FirstTruthyAt(cs, i) {
        assert FirstTruthyAt(cs[1..], i - 1) by {
          forall j | 0 <= j < i - 1
            ensures !Truthy(cs[1..][j])
          {
            assert cs[1..][j] == cs[j + 1];
          }
        }
      }
      if forall j :: 0 <= j < |cs| ==> !Truthy(cs[j]) {
        assert forall j :: 0 <= j < |cs[1..]| ==> !Truthy(cs[1..][j]) by {
          forall j | 0 <= j < |cs[1..]|
            ensures !Truthy(cs[1..][j])
          {
            assert cs[1..][j] == cs[j + 1];
          }
        }
      }
    }
  }

  /** Without an `error` key, the nested `or` chain is exactly the ordered
      list of candidates searched for the first truthy one. */
  lemma ExtractReplyIsChain(body: map<string, Json>)
    requires "error" !in body
    ensures ExtractReply(body) == FirstTruthy(Candidates(body), Fallback(body))
  {
    var cs := Candidates(body);
    FirstTruthyFour(cs[0], cs[1], cs[2], cs[3], Fallback(body));
    assert cs == [cs[0], cs[1], cs[2], cs[3]];
  }

  lemma FirstTruthyStep(cs: seq<Json>, fallback: Json)
    requires |cs| > 0
    ensures FirstTruthy(cs, fallback) == Or(cs[0], FirstTruthy(cs[1..], fallback))
  {
  }

  lemma FirstTruthyThree(a: Json, b: Json, c: Json, fallback: Json)
    ensures FirstTruthy([a, b, c], fallback) == Or(a, Or(b, Or(c, fallback)))
  {
    assert [a, b, c][1..] == [b, c];
    assert [b, c][1..] == [c];
    assert [c][1..] == [];
    FirstTruthyStep([c], fallback);
    FirstTruthyStep([b, c], fallback);
    FirstTruthyStep([a, b, c], fallback);
  }

  lemma FirstTruthyFour(a: Json, b: Json, c: Json, d: Json, fallback: Json)
    ensures FirstTruthy([a, b, c, d], fallback) == Or(a, Or(b, Or(c, Or(d, fallback))))
  {
    assert [a, b, c, d][1..] == [b, c, d];
    FirstTruthyThree(b, c, d, fallback);
    FirstTruthyStep([a, b, c, d], fallback);
  }

  /* ------------------------------------------------------- properties */

  /** An `error` key, whatever its value, decides the reply alone: it is the
      error marker and the value's text, and no other field is consulted. */
  lemma ErrorShortCircuits(body: map<string, Json>, other: map<string, Json>)
    requires "error" in body
    ensures ExtractReply(body) == JStr("Error: " + Str(body["error"]))
    ensures "error" in other && other["error"] == body["error"] ==> ExtractReply(other) == ExtractReply(body)
  {
  }

  /** Without an error, the reply is the first truthy of `response`,
      `output`, `result` and `data.result`, in that order. */
  lemma {:induction false} ReplyIsFirstTruthyCandidate(body: map<string, Json>, i: int)
    requires "error" !in body
    ensures FirstTruthyAt(Candidates(body), i) ==> ExtractReply(body) == Candidates(body)[i]
  {
    ExtractReplyIsChain(body);
    FirstTruthyPicksFirst(Candidates(body), Fallback(body), i);
  }

  /** Without an error, and with all four candidates absent or falsy, the
      reply is the whole body written out. */
  lemma ReplyFallsBackToBody(body: map<string, Json>)
    requires "error" !in body
    ensures (forall j :: 0 <= j < 4 ==> !Truthy(Candidates(body)[j])) ==> ExtractReply(body) == Fallback(body)
  {
    ExtractReplyIsChain(body);
    FirstTruthyPicksFirst(Candidates(body), Fallback(body), 0);
  }

  /** Two candidate lists that agree up to and including a truthy entry
      have the same first truthy entry, whatever follows and whatever the
      fallbacks are. */
  lemma {:induction false} FirstTruthyPrefix(cs: seq<Json>, os: seq<Json>, fallback: Json, fallback': Json, i: int)
    requires 0 <= i < |cs| && i < |os| && Truthy(cs[i])
    requires cs[..i + 1] == os[..i + 1]
    ensures FirstTruthy(cs, fallback) == FirstTruthy(os, fallback')
    decreases i
  {
    assert cs[0] == cs[..i + 1][0] == os[..i + 1][0] == os[0];
    if !Truthy(cs[0]) {
      assert cs[1..][..i] == cs[..i + 1][1..];
      assert os[1..][..i] == os[..i + 1][1..];
      FirstTruthyPrefix(cs[1..], os[1..], fallback, fallback', i - 1);
    }
  }

  /** A truthy candidate wins whatever the later candidates hold: two bodies
      that agree up to and including a truthy candidate get the same reply. */
  lemma {:induction false} EarlierCandidateWins(body: map<string, Json>, other: map<string, Json>, i: int)
    requires "error" !in body && "error" !in other
    requires 0 <= i < 4 && Truthy(Candidates(body)[i])
    requires Candidates(body)[..i + 1] == Candidates(other)[..i + 1]
    ensures ExtractReply(body) == ExtractReply(other)
  {
    ExtractReplyIsChain(body);
    ExtractReplyIsChain(other);
    FirstTruthyPrefix(Candidates(body), Candidates(other), Fallback(body), Fallback(other), i);
  }

  /** A `data` field that is not a mapping contributes nothing: the reply
      is chosen from the three top-level fields and the written-out body. */
  lemma DataMustBeMapping(body: map<string, Json>)
    requires "error" !in body
    requires "data" !in body || !body["data"].JObj?
    ensures ExtractReply(body) == FirstTruthy(Candidates(body)[..3], Fallback(body))
  {
    var cs := Candidates(body);
    assert cs[..3] == [cs[0], cs[1], cs[2]];
    FirstTruthyThree(cs[0], cs[1], cs[2], Fallback(body));
  }

  /** The reply is never blank: whichever branch chooses it, its text is
      non-empty. */
  lemma ReplyNeverBlank(body: map<string, Json>)
    ensures Str(ExtractReply(body)) != ""
  {
    StrBlankIff(ExtractReply(body));
  }

  /** Worked examples: each field is found when
      it is the only one, an empty earlier field is skipped, and an error
      key wins even with a null value. */
  lemma ResponseExample()
    ensures ExtractReply(map["response" := JStr("A")]) == JStr("A")
  {
  }

  lemma OutputExample()
    ensures ExtractReply(map["output" := JStr("B")]) == JStr("B")
    ensures ExtractReply(map["response" := JStr(""), "output" := JStr("B")]) == JStr("B")
  {
  }

  lemma NestedResultExample()
    ensures ExtractReply(map["data" := JObj(map["result" := JStr("C")])]) == JStr("C")
  {
  }

  lemma NullErrorExample()
    ensures ExtractReply(map["error" := JNull, "response" := JStr("A")]) == JStr("Error: None")
  {
  }

  /** A body with none of the known fields is written out, not rejected. */
  lemma UnknownFieldsWrittenOut()
    ensures ExtractReply(map["foo" := JStr("bar")]) == JStr("{'foo': 'bar'}")
  {
    var body := map["foo" := JStr("bar")];
    StrSingleEntry("foo", JStr("bar"));
    assert Fallback(body) == JStr("{'foo': 'bar'}");
    ReplyFallsBackToBody(body);
  }
}
