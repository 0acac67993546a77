/** When the check of a fragmented TEXT message, which only sees its last accumulation, is right. */
module WsText {
  import opened Bytes
  import opened WsFrame
  import opened WsReceiver
  import Utf8

  /** A TEXT message of which nothing has arrived. */
  const NO_TEXT := Msg(Frag, false, false, 0, [], [])

  /** The message in progress after these fragments, all of them too small to be streamed. */
  function Appended(cap: nat, payloads: seq<bytes>): Msg
    decreases |payloads|
  {
    if payloads == [] then NO_TEXT
    else Append(cap, Appended(cap, payloads[..|payloads| - 1]), payloads[|payloads| - 1])
  }

  function Total(sizes: seq<nat>): nat
    decreases |sizes|
  {
    if sizes == [] then 0 else Total(sizes[..|sizes| - 1]) + sizes[|sizes| - 1]
  }

  ghost predicate Sized(payloads: seq<bytes>, sizes: seq<nat>) {
    |payloads| == |sizes| && forall i :: 0 <= i < |sizes| ==> |payloads[i]| == sizes[i]
  }

  /** For fragments of these sizes, whatever they hold, the message is refused exactly when it is not UTF-8. */
  ghost predicate CheckIsRight(cfg: Config, sizes: seq<nat>) {
    forall payloads: seq<bytes> :: Sized(payloads, sizes) ==> RightFor(cfg, payloads)
  }

  ghost predicate RightFor(cfg: Config, payloads: seq<bytes>) {
    BadEnd(cfg, Appended(cfg.cap, payloads)) <==> !Utf8.IsUtf8(Flatten(payloads))
  }

  lemma Last(payloads: seq<bytes>)
    requires payloads != []
    ensures var front, last := payloads[..|payloads| - 1], payloads[|payloads| - 1];
      payloads == front + [last] && Flatten(payloads) == Flatten(front) + last
  {
    var front, last := payloads[..|payloads| - 1], payloads[|payloads| - 1];
    assert payloads == front + [last];
    FlattenNext(front, last);
  }

  lemma {:induction false} TotalIsSize(payloads: seq<bytes>, sizes: seq<nat>)
    requires Sized(payloads, sizes)
    ensures |Flatten(payloads)| == Total(sizes)
    decreases |sizes|
  {
    if sizes != [] {
      Last(payloads);
      TotalIsSize(payloads[..|payloads| - 1], sizes[..|sizes| - 1]);
    }
  }

  /** Up to `cap` bytes nothing is handed over before the end. */
  lemma {:induction false} HeldAll(cap: nat, payloads: seq<bytes>)
    requires |Flatten(payloads)| <= cap
    ensures Appended(cap, payloads).frag == Flatten(payloads)
    ensures !Appended(cap, payloads).compressed && !Appended(cap, payloads).binary
    decreases |payloads|
  {
    if payloads != [] {
      Last(payloads);
      HeldAll(cap, payloads[..|payloads| - 1]);
    }
  }

  // ---------------------------------------------------------------- a first byte that is not UTF-8

  /** Zeros, but for the first byte of the message. */
  function SpoiltPart(before: nat, n: nat): (p: bytes)
    ensures |p| == n && forall j :: 0 <= j < n ==> p[j] == if before + j == 0 then 0xFF else 0
  {
    seq(n, j => if before + j == 0 then 0xFF else 0)
  }

  function Spoilt(sizes: seq<nat>): (payloads: seq<bytes>)
    ensures |payloads| == |sizes|
    decreases |sizes|
  {
    if sizes == [] then []
    else
      var front := sizes[..|sizes| - 1];
      Spoilt(front) + [SpoiltPart(Total(front), sizes[|sizes| - 1])]
  }

  ghost predicate AllZero(s: bytes) {
    forall i :: 0 <= i < |s| ==> s[i] == 0
  }

  lemma {:induction false} ZeroIsValid(s: bytes)
    requires AllZero(s)
    ensures Utf8.Valid(s)
    decreases |s|
  {
    if s != [] {
      ZeroIsValid(s[1..]);
    }
  }

  lemma {:induction false} SpoiltBytes(sizes: seq<nat>)
    ensures Sized(Spoilt(sizes), sizes) && Flatten(Spoilt(sizes)) == SpoiltPart(0, Total(sizes))
    decreases |sizes|
  {
    if sizes != [] {
      var front, last := sizes[..|sizes| - 1], sizes[|sizes| - 1];
      SpoiltBytes(front);
      FlattenNext(Spoilt(front), SpoiltPart(Total(front), last));
      assert SpoiltPart(0, Total(front)) + SpoiltPart(Total(front), last) == SpoiltPart(0, Total(sizes));
    }
  }

  /** What is held of a spoilt message is all of it or, once anything was handed over, only zeros. */
  ghost predicate AllOrZero(cap: nat, m: Msg, total: nat) {
    && |m.frag| <= cap && |m.frag| <= total && !m.compressed && !m.binary
    && (m.frag == SpoiltPart(0, total) || AllZero(m.frag))
  }

  lemma HeldNext(cap: nat, m: Msg, before: nat, n: nat)
    requires AllOrZero(cap, m, before) && n <= cap
    ensures AllOrZero(cap, Append(cap, m, SpoiltPart(before, n)), before + n)
  {
    var m1 := Append(cap, m, SpoiltPart(before, n));
    if |m.frag| + n > cap {
      assert m1.frag == SpoiltPart(before, n);
      assert before == 0 ==> |m.frag| == 0;
    } else if m.frag == SpoiltPart(0, before) {
      assert m1.frag == SpoiltPart(0, before + n);
    } else {
      assert m1.frag == m.frag + SpoiltPart(before, n);
    }
  }

  lemma {:induction false} SpoiltHeld(cap: nat, sizes: seq<nat>)
    requires forall i :: 0 <= i < |sizes| ==> sizes[i] <= cap
    ensures AllOrZero(cap, Appended(cap, Spoilt(sizes)), Total(sizes))
    decreases |sizes|
  {
    if sizes != [] {
      var front, last := sizes[..|sizes| - 1], sizes[|sizes| - 1];
      var payloads := Spoilt(sizes);
      SpoiltHeld(cap, front);
      HeldNext(cap, Appended(cap, Spoilt(front)), Total(front), last);
      assert payloads[..|payloads| - 1] == Spoilt(front);
    }
  }

  lemma SpoiltIsInvalid(n: nat)
    requires n > 0
    ensures !Utf8.IsUtf8(SpoiltPart(0, n))
  {
    var d := SpoiltPart(0, n);
    assert d[0] == 0xFF && Utf8.CharSize(d) == 0;
    Utf8.ValidIffUtf8(d);
  }

  /** The spoilt message fills the buffer exactly, or its first byte was handed over: it is not refused. */
  lemma SpoiltEscapes(cfg: Config, sizes: seq<nat>)
    requires forall i :: 0 <= i < |sizes| ==> sizes[i] <= cfg.cap
    requires 0 < cfg.cap <= Total(sizes)
    ensures Sized(Spoilt(sizes), sizes) && !RightFor(cfg, Spoilt(sizes))
  {
    var m := Appended(cfg.cap, Spoilt(sizes));
    SpoiltBytes(sizes);
    SpoiltHeld(cfg.cap, sizes);
    SpoiltIsInvalid(Total(sizes));
    if AllZero(m.frag) {
      ZeroIsValid(m.frag);
    }
  }

  /**
   * The check of a fragmented TEXT message decides UTF-8 for all contents of these sizes if and only
   * if the message has less than `cap` bytes.
   */
  lemma TextSizesExactly(cfg: Config, sizes: seq<nat>)
    requires cfg.checkUtf8 && cfg.cap > 0 && forall i :: 0 <= i < |sizes| ==> sizes[i] <= cfg.cap
    ensures CheckIsRight(cfg, sizes) <==> Total(sizes) < cfg.cap
  {
    if Total(sizes) < cfg.cap {
      forall payloads: seq<bytes> | Sized(payloads, sizes) ensures RightFor(cfg, payloads) {
        TotalIsSize(payloads, sizes);
        HeldAll(cfg.cap, payloads);
        Utf8.ValidIffUtf8(Flatten(payloads));
      }
    } else {
      SpoiltEscapes(cfg, sizes);
    }
  }
}
