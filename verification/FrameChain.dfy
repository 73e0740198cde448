/**
 * Stream-frame evidence of evals/p10g_fixture.py: `_frame`, `_frames` and `_rechain_stream`.
 * Digests, the SSE encoding and JSON parsing are parameters; `_frame` raises when the arguments of
 * a tool call are not JSON.
 */
module FrameChain {
  import opened Shared

  datatype Frame = Frame(
    frameId: string, seqNo: int, kind: Kind, payload: string, payloadSha: string, sseSha: string, encodedBytes: nat,
    acked: bool, previous: string, toolName: string, toolArguments: string, toolArgumentsSha: string)

  /** What the caller of `_frame` supplies, numbers and links aside. */
  datatype Content = Content(frameId: string, kind: Kind, payload: string, acked: bool, toolName: string,
      toolArguments: string)

  datatype Env = Env(
    textSha: string -> string,                  // text_sha256
    sseSha: (Kind, string) -> string,           // digest of encode_sse_event
    sseLength: (Kind, string) -> nat,           // its length in bytes
    argumentsSha: string -> Option<string>,     // digest_json(json.loads(text)), None when it raises
    toolPayload: (string, string) -> string,    // tool_call_payload, where the arguments parse
    digest: Frame -> string)                    // stream_frame_digest

  function ContentOf(f: Frame): Content {
    Content(f.frameId, f.kind, f.payload, f.acked, f.toolName, f.toolArguments)
  }

  /** Lines 78-106. */
  function MakeFrame(e: Env, x: Content, seqNo: int, previous: string): Option<Frame> {
    var toolSha := if x.kind.ToolCall? then e.argumentsSha(x.toolArguments) else Some("");
    if toolSha.None? then None
    else Some(Frame(x.frameId, seqNo, x.kind, x.payload, e.textSha(x.payload), e.sseSha(x.kind, x.payload),
                    e.sseLength(x.kind, x.payload), x.acked, previous, x.toolName, x.toolArguments, toolSha.value))
  }

  /** Lines 301-313, from frame number `seqNo` on. */
  function RechainFrom(e: Env, previous: string, frames: seq<Frame>, seqNo: int): Option<seq<Frame>>
    decreases |frames|
  {
    if frames == [] then Some([])
    else
      var f := MakeFrame(e, ContentOf(frames[0]), seqNo, previous);
      if f.None? then None
      else
        var rest := RechainFrom(e, e.digest(f.value), frames[1..], seqNo + 1);
        if rest.None? then None else Some([f.value] + rest.value)
  }

  method RechainStream(e: Env, seed: string, frames: seq<Frame>) returns (out: Option<seq<Frame>>)
    ensures out == RechainFrom(e, seed, frames, 1)
    ensures out.Some? <==> Parses(e, frames)
    ensures out.Some? ==> Sealed(e, seed, out.value, 1)
    ensures out.Some? ==> |out.value| == |frames| && forall i :: 0 <= i < |frames| ==>
        ContentOf(out.value[i]) == ContentOf(frames[i])
  {
    RechainSeals(e, seed, frames, 1);
    var previous, done := seed, [];
    assert frames[0..] == frames;
    if Parses(e, frames) {
      assert [] + RechainFrom(e, seed, frames, 1).value == RechainFrom(e, seed, frames, 1).value;
    }
    for n := 0 to |frames|
      invariant var rest := RechainFrom(e, previous, frames[n..], n + 1);
                RechainFrom(e, seed, frames, 1) == if rest.None? then None else Some(done + rest.value)
    {
      assert frames[n..][0] == frames[n] && frames[n..][1..] == frames[n + 1..];
      var f := MakeFrame(e, ContentOf(frames[n]), n + 1, previous);
      if f.None? {
        return None;
      }
      ghost var rest := RechainFrom(e, e.digest(f.value), frames[n + 1..], n + 2);
      if rest.Some? {
        assert done + ([f.value] + rest.value) == (done + [f.value]) + rest.value;
      }
      done := done + [f.value];
      previous := e.digest(f.value);
    }
    assert frames[|frames|..] == [] && done + [] == done;
    return Some(done);
  }

  /** Every tool call carries arguments that parse. */
  ghost predicate Parses(e: Env, frames: seq<Frame>) {
    forall i :: 0 <= i < |frames| && frames[i].kind.ToolCall? ==> e.argumentsSha(frames[i].toolArguments).Some?
  }

  /** The link a frame has to carry. */
  function LinkBefore(e: Env, seed: string, frames: seq<Frame>, i: nat): string
    requires i <= |frames|
  {
    if i == 0 then seed else e.digest(frames[i - 1])
  }

  /** Numbers run from `first`, links chain from the seed, and every derived field matches its text. */
  ghost predicate Sealed(e: Env, seed: string, frames: seq<Frame>, first: int) {
    forall i :: 0 <= i < |frames| ==> SealedAt(e, seed, frames, first, i)
  }

  ghost predicate SealedAt(e: Env, seed: string, frames: seq<Frame>, first: int, i: nat)
    requires i < |frames|
  {
    var f := frames[i];
    && f.seqNo == first + i
    && f.previous == LinkBefore(e, seed, frames, i)
    && f.payloadSha == e.textSha(f.payload)
    && f.sseSha == e.sseSha(f.kind, f.payload) && f.encodedBytes == e.sseLength(f.kind, f.payload)
    && (if f.kind.ToolCall? then e.argumentsSha(f.toolArguments) == Some(f.toolArgumentsSha)
        else f.toolArgumentsSha == "")
  }

  lemma SealedCons(e: Env, seed: string, frames: seq<Frame>, first: int)
    requires frames != []
    ensures Sealed(e, seed, frames, first) <==>
              SealedAt(e, seed, frames, first, 0) && Sealed(e, e.digest(frames[0]), frames[1..], first + 1)
  {
    var link, rest, next := e.digest(frames[0]), frames[1..], first + 1;
    forall i | 0 <= i < |rest|
      ensures SealedAt(e, link, rest, next, i) <==> SealedAt(e, seed, frames, first, i + 1)
    {
      assert rest[i] == frames[i + 1];
    }
    if Sealed(e, link, rest, next) && SealedAt(e, seed, frames, first, 0) {
      forall i | 0 <= i < |frames|
        ensures SealedAt(e, seed, frames, first, i)
      {
        if i > 0 {
          assert SealedAt(e, link, rest, next, i - 1);
        }
      }
    }
    if Sealed(e, seed, frames, first) {
      forall i | 0 <= i < |rest|
        ensures SealedAt(e, link, rest, next, i)
      {
        assert SealedAt(e, seed, frames, first, i + 1);
      }
    }
  }

  lemma ParsesCons(e: Env, frames: seq<Frame>)
    requires frames != []
    ensures Parses(e, frames) <==>
              (frames[0].kind.ToolCall? ==> e.argumentsSha(frames[0].toolArguments).Some?) && Parses(e, frames[1..])
  {
    var rest := frames[1..];
    assert forall i :: 0 <= i < |rest| ==> rest[i] == frames[i + 1];
    if Parses(e, rest) && (frames[0].kind.ToolCall? ==> e.argumentsSha(frames[0].toolArguments).Some?) {
      forall i | 0 <= i < |frames| && frames[i].kind.ToolCall?
        ensures e.argumentsSha(frames[i].toolArguments).Some?
      {
        if i > 0 {
          assert rest[i - 1] == frames[i];
        }
      }
    }
  }

  /** Re-chaining succeeds exactly when every tool call parses, seals what it returns and keeps all content. */
  lemma {:induction false} RechainSeals(e: Env, seed: string, frames: seq<Frame>, first: int)
    ensures var out := RechainFrom(e, seed, frames, first);
            && (out.Some? <==> Parses(e, frames))
            && (out.Some? ==>
                  && Sealed(e, seed, out.value, first) && |out.value| == |frames|
                  && forall i :: 0 <= i < |frames| ==> ContentOf(out.value[i]) == ContentOf(frames[i]))
    decreases |frames|
  {
    if frames != [] {
      ParsesCons(e, frames);
      var f := MakeFrame(e, ContentOf(frames[0]), first, seed);
      if f.Some? {
        RechainSeals(e, e.digest(f.value), frames[1..], first + 1);
        var out := RechainFrom(e, seed, frames, first);
        if out.Some? {
          assert out.value[0] == f.value && out.value[1..]
              == RechainFrom(e, e.digest(f.value), frames[1..], first + 1).value;
          SealedCons(e, seed, out.value, first);
        }
      }
    }
  }

  lemma MakeFrameFixes(e: Env, seed: string, frames: seq<Frame>, first: int)
    requires frames != []
    ensures MakeFrame(e, ContentOf(frames[0]), first, seed) == Some(frames[0]) <==> SealedAt(e, seed, frames, first, 0)
  {
  }

  /** Re-chaining is the identity exactly on sealed frame lists. */
  lemma {:induction false} RechainFixesExactlySealed(e: Env, seed: string, frames: seq<Frame>, first: int)
    ensures RechainFrom(e, seed, frames, first) == Some(frames) <==> Sealed(e, seed, frames, first)
    decreases |frames|
  {
    if frames != [] {
      SealedCons(e, seed, frames, first);
      MakeFrameFixes(e, seed, frames, first);
      RechainFixesExactlySealed(e, e.digest(frames[0]), frames[1..], first + 1);
      var f := MakeFrame(e, ContentOf(frames[0]), first, seed);
      var out := RechainFrom(e, seed, frames, first);
      assert frames == [frames[0]] + frames[1..];
      if out == Some(frames) {
        var rest := RechainFrom(e, e.digest(f.value), frames[1..], first + 1);
        assert out.value[0] == f.value && out.value[1..] == rest.value;
      }
    }
  }

  /** Re-chaining twice is re-chaining once. */
  lemma RechainIsIdempotent(e: Env, seed: string, frames: seq<Frame>)
    requires Parses(e, frames)
    ensures var out := RechainFrom(e, seed, frames, 1);
            out.Some? && RechainFrom(e, seed, out.value, 1) == out
  {
    RechainSeals(e, seed, frames, 1);
    RechainFixesExactlySealed(e, seed, RechainFrom(e, seed, frames, 1).value, 1);
  }

  const FRAME_IDS := ["stream-frame-acme-0001", "stream-frame-acme-0002", "stream-frame-acme-0003",
      "stream-frame-acme-0004"]
  const CANCEL_PAYLOAD := "{\"reason\":\"client_cancelled\"}"

  /** Lines 109-150; the tool payload is computed from arguments that have to parse. */
  function Frames(e: Env, seed: string, firstPayload: string, toolArguments: string): Option<seq<Frame>> {
    var first := MakeFrame(e, Content(FRAME_IDS[0], Token, firstPayload, true, "", ""), 1, seed);
    if first.None? then None else
    var second := MakeFrame(e, Content(FRAME_IDS[1], Token, "status: ", true, "", ""), 2, e.digest(first.value));
    if second.None? then None else
    var payload := e.toolPayload("lookup_ticket", toolArguments);
    var third := MakeFrame(e, Content(FRAME_IDS[2], ToolCall, payload, false, "lookup_ticket", toolArguments), 3,
        e.digest(second.value));
    if third.None? then None else
    var fourth := MakeFrame(e, Content(FRAME_IDS[3], Cancelled, CANCEL_PAYLOAD, true, "", ""), 4,
        e.digest(third.value));
    if fourth.None? then None else Some([first.value, second.value, third.value, fourth.value])
  }

  /** What the fixture's stream consists of: two tokens, a tool call that is not acknowledged, a cancellation. */
  lemma BuiltFramesContents(e: Env, seed: string, firstPayload: string, toolArguments: string)
    requires Frames(e, seed, firstPayload, toolArguments).Some?
    ensures var fs := Frames(e, seed, firstPayload, toolArguments).value;
            && |fs| == 4 && (forall i :: 0 <= i < 4 ==> fs[i].frameId == FRAME_IDS[i] && (fs[i].acked <==> i != 2))
            && (forall i :: 0 <= i < 4 ==> (fs[i].kind.ToolCall? <==> i == 2) && (fs[i].kind.Terminal() <==> i == 3))
            && fs[0].payload == firstPayload && fs[3].payload == "{\"reason\":\"client_cancelled\"}"
            && fs[2].toolName == "lookup_ticket" && fs[2].toolArguments == toolArguments
            && fs[2].payload == e.toolPayload(fs[2].toolName, fs[2].toolArguments)
  {
  }

  /** `_frames` builds a sealed list whenever it returns, so re-chaining from the same seed leaves it alone. */
  lemma BuiltFramesAreFixed(e: Env, seed: string, firstPayload: string, toolArguments: string)
    ensures var built := Frames(e, seed, firstPayload, toolArguments);
            && (built.Some? <==> e.argumentsSha(toolArguments).Some?)
            && (built.Some? ==> Sealed(e, seed, built.value, 1) && RechainFrom(e, seed, built.value, 1) == built)
  {
    var built := Frames(e, seed, firstPayload, toolArguments);
    if built.Some? {
      var fs := built.value;
      forall i | 0 <= i < |fs|
        ensures SealedAt(e, seed, fs, 1, i)
      {
        assert i == 0 || i == 1 || i == 2 || i == 3;
      }
      RechainFixesExactlySealed(e, seed, fs, 1);
    }
  }

  // ---------------------------------------------------------------------------------------------
  // Binding
  // ---------------------------------------------------------------------------------------------

  /** Two different frames, one from each list, with the same digest. */
  ghost predicate Collision(e: Env, a: seq<Frame>, b: seq<Frame>) {
    exists i, j :: 0 <= i < |a| && 0 <= j < |b| && a[i] != b[j] && e.digest(a[i]) == e.digest(b[j])
  }

  /** The link that would follow the last frame. */
  function Tip(e: Env, seed: string, frames: seq<Frame>): string {
    LinkBefore(e, seed, frames, |frames|)
  }

  /** A frame of this list digests to the seed. */
  ghost predicate SeedHit(e: Env, seed: string, frames: seq<Frame>) {
    exists i :: 0 <= i < |frames| && e.digest(frames[i]) == seed
  }

  /**
   * Two sealed lists from one seed with the same final digest are the same list, or exhibit a
   * collision, or one of them digests to the seed: frame numbers are covered by the digest, so the
   * length cannot differ otherwise.
   */
  lemma {:induction false} SealedListsBind(e: Env, seed: string, a: seq<Frame>, b: seq<Frame>)
    requires Sealed(e, seed, a, 1) && Sealed(e, seed, b, 1)
    requires Tip(e, seed, a) == Tip(e, seed, b)
    ensures a == b || Collision(e, a, b) || SeedHit(e, seed, a) || SeedHit(e, seed, b)
  {
    var m, n := |a| - 1, |b| - 1;
    if a == [] && b != [] {
      assert e.digest(b[n]) == seed;
    } else if a != [] && b == [] {
      assert e.digest(a[m]) == seed;
    } else if a != [] {
      assert SealedAt(e, seed, a, 1, m) && SealedAt(e, seed, b, 1, n);
      if a[m] == b[n] {
        assert m == n;
        SealedBackwards(e, seed, a, b, m);
        if !Collision(e, a, b) {
          assert a[..m + 1] == a && b[..m + 1] == b;
        }
      }
    }
  }

  lemma {:induction false} SealedBackwards(e: Env, seed: string, a: seq<Frame>, b: seq<Frame>, m: nat)
    requires Sealed(e, seed, a, 1) && Sealed(e, seed, b, 1) && m < |a| && m < |b| && a[m] == b[m]
    ensures a[..m + 1] == b[..m + 1] || Collision(e, a, b)
    decreases m
  {
    assert SealedAt(e, seed, a, 1, m) && SealedAt(e, seed, b, 1, m);
    if m > 0 {
      assert e.digest(a[m - 1]) == e.digest(b[m - 1]);
      if a[m - 1] == b[m - 1] {
        SealedBackwards(e, seed, a, b, m - 1);
        assert a[..m + 1] == a[..m] + [a[m]] && b[..m + 1] == b[..m] + [b[m]];
      }
    }
  }
}
