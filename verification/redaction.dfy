/** The line-redacting log writer (vaultlog.go).

    Vault's log arrives in arbitrary chunks. The writer buffers it, cuts it into
    lines, replaces every configured secret in a line by "****" and hands the line
    to a destination that may fail.  */
module Redaction {

  newtype Byte = b: int | 0 <= b < 256
  type Bytes = seq<Byte>

  const NEWLINE: Byte := 10
  const STAR: Byte := 42
  const MASK: Bytes := [STAR, STAR, STAR, STAR]

  // ---------------------------------------------------------------- occurrences

  predicate OccursAt(t: Bytes, s: Bytes, i: nat) {
    i + |t| <= |s| && s[i..i + |t|] == t
  }

  ghost predicate Occurs(t: Bytes, s: Bytes) {
    exists i: nat :: OccursAt(t, s, i)
  }

  /** Go's strings.ReplaceAll: a left-to-right scan that never looks back into
      what it has replaced. */
  function ReplaceAll(s: Bytes, secret: Bytes): Bytes
    requires secret != []
    decreases |s|
  {
    if |s| < |secret| then s
    else if OccursAt(secret, s, 0) then MASK + ReplaceAll(s[|secret|..], secret)
    else [s[0]] + ReplaceAll(s[1..], secret)
  }

  predicate AllNonEmpty(secrets: seq<Bytes>) {
    forall k | 0 <= k < |secrets| :: secrets[k] != []
  }

  /** The loop over the configured secrets, one after the other on the same line. */
  function Redact(line: Bytes, secrets: seq<Bytes>): Bytes
    requires AllNonEmpty(secrets)
    decreases |secrets|
  {
    if secrets == [] then line
    else Redact(ReplaceAll(line, secrets[0]), secrets[1..])
  }

  /** The constructor's filter: empty secrets are dropped, order is kept. */
  function NonEmpty(secrets: seq<Bytes>): (r: seq<Bytes>)
    ensures AllNonEmpty(r)
    ensures forall t :: t in r <==> t in secrets && t != []
  {
    if secrets == [] then []
    else (if secrets[0] != [] then [secrets[0]] else []) + NonEmpty(secrets[1..])
  }

  // --------------------------------------------------------- when a mask is safe

  /** A secret no mask can overlap: it neither starts nor ends with a star, holds
      no four stars in a row, and fits on one line. */
  ghost predicate MaskSafe(t: Bytes) {
    && t != []
    && NEWLINE !in t
    && t[0] != STAR
    && t[|t| - 1] != STAR
    && !Occurs(MASK, t)
  }

  lemma PlainSecretIsMaskSafe(t: Bytes)
    requires t != [] && STAR !in t && NEWLINE !in t
    ensures MaskSafe(t)
  {
    forall i: nat ensures !OccursAt(MASK, t, i) {
      if i + 4 <= |t| { assert t[i..i + 4][0] == t[i]; }
    }
  }

  /** A mask-free ending of a redacted text was already an ending of a match in
      the text itself: what starts the output also starts the input. */
  lemma {:induction false} PrefixSurvives(u: Bytes, s: Bytes, secret: Bytes)
    requires secret != []
    requires u == [] || u[|u| - 1] != STAR
    requires !Occurs(MASK, u)
    ensures OccursAt(u, ReplaceAll(s, secret), 0) ==> OccursAt(u, s, 0)
    decreases |s|
  {
    var out := ReplaceAll(s, secret);
    if u == [] || |s| < |secret| {
    } else if OccursAt(secret, s, 0) {
      assert out == MASK + ReplaceAll(s[|secret|..], secret);
      if |u| >= 4 {
        assert !OccursAt(MASK, u, 0);
        if |u| <= |out| { assert out[0..|u|][0..4] == MASK; }
      } else {
        assert out[0..|u|][|u| - 1] == STAR;
      }
    } else {
      var v := u[1..];
      assert out == [s[0]] + ReplaceAll(s[1..], secret);
      NoMaskInTail(u);
      PrefixSurvives(v, s[1..], secret);
      if |u| <= |out| { assert out[0..|u|] == [s[0]] + out[1..][0..|v|]; }
      if |u| <= |s| { assert s[0..|u|] == [s[0]] + s[1..][0..|v|]; }
      assert u == [u[0]] + v;
    }
  }

  lemma NoMaskInTail(u: Bytes)
    requires u != [] && !Occurs(MASK, u)
    ensures !Occurs(MASK, u[1..])
  {
    forall i: nat ensures !OccursAt(MASK, u[1..], i) {
      assert !OccursAt(MASK, u, i + 1);
      if i + 5 <= |u| { assert u[1..][i..i + 4] == u[i + 1..i + 5]; }
    }
  }

  /** Redacting one secret never creates an occurrence of a mask-safe one. */
  lemma {:induction false} NothingCreated(t: Bytes, s: Bytes, secret: Bytes, i: nat)
    requires secret != [] && MaskSafe(t)
    ensures OccursAt(t, ReplaceAll(s, secret), i) ==> Occurs(t, s)
    decreases |s|
  {
    var out := ReplaceAll(s, secret);
    if |s| < |secret| {
    } else if OccursAt(secret, s, 0) {
      MaskNeverStarts(t, ReplaceAll(s[|secret|..], secret), i);
      if i >= 4 {
        NothingCreated(t, s[|secret|..], secret, i - 4);
        OccursInSuffix(t, s, |secret|);
      }
    } else {
      assert out == [s[0]] + ReplaceAll(s[1..], secret);
      if i == 0 {
        PrefixSurvives(t, s, secret);
      } else {
        NothingCreated(t, s[1..], secret, i - 1);
        OccursInSuffix(t, s, 1);
        if i + |t| <= |out| { assert out[i..i + |t|] == out[1..][i - 1..i - 1 + |t|]; }
      }
    }
  }

  /** A mask-safe text in front of which a mask was put lies behind that mask. */
  lemma MaskNeverStarts(t: Bytes, tail: Bytes, i: nat)
    requires MaskSafe(t)
    ensures OccursAt(t, MASK + tail, i) ==> i >= 4 && OccursAt(t, tail, i - 4)
  {
    var out := MASK + tail;
    if i + |t| <= |out| {
      if i < 4 {
        assert out[i..i + |t|][0] == MASK[i];
      } else {
        assert out[i..i + |t|] == tail[i - 4..i - 4 + |t|];
      }
    }
  }

  lemma OccursInSuffix(t: Bytes, s: Bytes, n: nat)
    requires n <= |s|
    ensures Occurs(t, s[n..]) ==> Occurs(t, s)
  {
    if Occurs(t, s[n..]) {
      var i: nat :| OccursAt(t, s[n..], i);
      assert s[n + i..n + i + |t|] == s[n..][i..i + |t|];
      assert OccursAt(t, s, n + i);
    }
  }

  /** Redacting a mask-safe secret removes every occurrence of it. */
  lemma {:induction false} SecretRemoved(t: Bytes, s: Bytes, i: nat)
    requires MaskSafe(t)
    ensures !OccursAt(t, ReplaceAll(s, t), i)
    decreases |s|
  {
    var out := ReplaceAll(s, t);
    if |s| < |t| {
    } else if OccursAt(t, s, 0) {
      MaskNeverStarts(t, ReplaceAll(s[|t|..], t), i);
      if i >= 4 { SecretRemoved(t, s[|t|..], i - 4); }
    } else if i == 0 {
      PrefixSurvives(t, s, t);
    } else {
      assert out == [s[0]] + ReplaceAll(s[1..], t);
      SecretRemoved(t, s[1..], i - 1);
      if i + |t| <= |out| { assert out[i..i + |t|] == out[1..][i - 1..i - 1 + |t|]; }
    }
  }

  /** Once gone, a mask-safe secret stays gone under every later replacement. */
  lemma {:induction false} StaysGone(t: Bytes, line: Bytes, secrets: seq<Bytes>)
    requires AllNonEmpty(secrets) && MaskSafe(t)
    requires !Occurs(t, line)
    ensures !Occurs(t, Redact(line, secrets))
    decreases |secrets|
  {
    if secrets != [] {
      var next := ReplaceAll(line, secrets[0]);
      forall i: nat ensures !OccursAt(t, next, i) { NothingCreated(t, line, secrets[0], i); }
      StaysGone(t, next, secrets[1..]);
    }
  }

  /** A redacted line holds none of its mask-safe secrets, whatever the others are. */
  lemma {:induction false} LineHoldsNoSecret(t: Bytes, line: Bytes, secrets: seq<Bytes>)
    requires AllNonEmpty(secrets) && MaskSafe(t) && t in secrets
    ensures !Occurs(t, Redact(line, secrets))
    decreases |secrets|
  {
    var next := ReplaceAll(line, secrets[0]);
    if t == secrets[0] {
      forall i: nat ensures !OccursAt(t, next, i) { SecretRemoved(t, line, i); }
      StaysGone(t, next, secrets[1..]);
    } else {
      LineHoldsNoSecret(t, next, secrets[1..]);
    }
  }

  // --------------------------------------------------- what redaction leaves alone

  /** Everything before the leftmost occurrence is copied, the occurrence becomes
      the mask, and the scan resumes behind it. */
  lemma {:induction false} LeftmostReplaced(a: Bytes, secret: Bytes, b: Bytes)
    requires secret != []
    requires forall i: nat | i < |a| :: !OccursAt(secret, a + secret + b, i)
    ensures ReplaceAll(a + secret + b, secret) == a + MASK + ReplaceAll(b, secret)
    decreases |a|
  {
    var s := a + secret + b;
    if a == [] {
      assert s[0..|secret|] == secret;
      assert s[|secret|..] == b;
      assert a + MASK == MASK;
    } else {
      assert !OccursAt(secret, s, 0);
      assert s[1..] == a[1..] + secret + b;
      forall i: nat | i < |a[1..]| ensures !OccursAt(secret, s[1..], i) {
        assert !OccursAt(secret, s, i + 1);
        assert s[1..][i..i + |secret|] == s[i + 1..i + 1 + |secret|];
      }
      LeftmostReplaced(a[1..], secret, b);
      assert a + MASK + ReplaceAll(b, secret) == [a[0]] + (a[1..] + MASK + ReplaceAll(b, secret));
    }
  }

  lemma {:induction false} Untouched(s: Bytes, secret: Bytes)
    requires secret != [] && !Occurs(secret, s)
    ensures ReplaceAll(s, secret) == s
    decreases |s|
  {
    if |s| >= |secret| {
      assert !OccursAt(secret, s, 0);
      OccursInSuffix(secret, s, 1);
      Untouched(s[1..], secret);
    }
  }

  /** A line that holds none of the secrets is left as it is, whatever the list of
      secrets, the empty list included. */
  lemma {:induction false} NothingToHide(line: Bytes, secrets: seq<Bytes>)
    requires AllNonEmpty(secrets)
    requires forall t | t in secrets :: !Occurs(t, line)
    ensures Redact(line, secrets) == line
    decreases |secrets|
  {
    if secrets != [] {
      assert secrets[0] in secrets;
      Untouched(line, secrets[0]);
      NothingToHide(line, secrets[1..]);
    }
  }

  /** One secret more is one replacement more, behind the others. */
  lemma {:induction false} OneSecretMore(line: Bytes, secrets: seq<Bytes>, t: Bytes)
    requires AllNonEmpty(secrets) && t != []
    ensures AllNonEmpty(secrets + [t])
    ensures Redact(line, secrets + [t]) == ReplaceAll(Redact(line, secrets), t)
    decreases |secrets|
  {
    var all := secrets + [t];
    if secrets == [] {
      assert all == [t] && all[1..] == [];
    } else {
      assert all[0] == secrets[0] && all[1..] == secrets[1..] + [t];
      OneSecretMore(ReplaceAll(line, secrets[0]), secrets[1..], t);
    }
  }

  lemma {:induction false} NonEmptyInOrder(a: seq<Bytes>, b: seq<Bytes>)
    ensures NonEmpty(a + b) == NonEmpty(a) + NonEmpty(b)
    decreases |a|
  {
    if a == [] {
      assert a + b == b;
    } else {
      assert (a + b)[1..] == a[1..] + b;
      NonEmptyInOrder(a[1..], b);
    }
  }

  lemma OneMoreSecret(secrets: seq<Bytes>, i: nat)
    requires i < |secrets|
    ensures NonEmpty(secrets[..i + 1]) == NonEmpty(secrets[..i]) + if secrets[i] != [] then [secrets[i]] else []
  {
    assert secrets[..i + 1] == secrets[..i] + [secrets[i]];
    NonEmptyInOrder(secrets[..i], [secrets[i]]);
    assert [secrets[i]][1..] == [];
    assert NonEmpty([secrets[i]]) == if secrets[i] != [] then [secrets[i]] else [];
  }

  // ------------------------------------------------------------ lines of a stream

  function FirstNewline(s: Bytes): (i: nat)
    ensures i <= |s| && NEWLINE !in s[..i]
    ensures i < |s| ==> s[i] == NEWLINE
  {
    if s == [] then 0
    else if s[0] == NEWLINE then 0
    else
      var i := 1 + FirstNewline(s[1..]);
      assert s[..i] == [s[0]] + s[1..][..i - 1];
      i
  }

  /** The complete lines of a text, without their newlines. */
  function Lines(s: Bytes): seq<Bytes>
    decreases |s|
  {
    var i := FirstNewline(s);
    if i == |s| then [] else [s[..i]] + Lines(s[i + 1..])
  }

  /** What is left of a text behind its first n complete lines. */
  function Behind(s: Bytes, n: nat): Bytes
    requires n <= |Lines(s)|
    decreases n
  {
    if n == 0 then s else Behind(s[FirstNewline(s) + 1..], n - 1)
  }

  lemma {:induction false} BehindNth(s: Bytes, n: nat)
    requires n <= |Lines(s)|
    ensures var rest := Behind(s, n); var i := FirstNewline(rest);
            && (i == |rest| <==> n == |Lines(s)|)
            && (i < |rest| ==> rest[..i] == Lines(s)[n] && Behind(s, n + 1) == rest[i + 1..])
    decreases n
  {
    if n > 0 { BehindNth(s[FirstNewline(s) + 1..], n - 1); }
  }

  lemma {:induction false} FirstNewlineOfConcat(s: Bytes, p: Bytes)
    requires FirstNewline(s) < |s|
    ensures FirstNewline(s + p) == FirstNewline(s)
    decreases |s|
  {
    if s[0] != NEWLINE {
      assert (s + p)[1..] == s[1..] + p;
      FirstNewlineOfConcat(s[1..], p);
    }
  }

  /** A text whose only newline is its last byte. */
  lemma {:induction false} FirstNewlineAtEnd(line: Bytes)
    requires NEWLINE !in line
    ensures FirstNewline(line + [NEWLINE]) == |line|
    decreases |line|
  {
    if line != [] {
      assert (line + [NEWLINE])[1..] == line[1..] + [NEWLINE];
      FirstNewlineAtEnd(line[1..]);
    }
  }

  /** The first line of a longer text, and what is behind it. */
  lemma FirstLineOfConcat(s: Bytes, p: Bytes)
    requires FirstNewline(s) < |s|
    ensures var i := FirstNewline(s);
            FirstNewline(s + p) == i < |s + p| && (s + p)[..i] == s[..i] && (s + p)[i + 1..] == s[i + 1..] + p
  {
    hide FirstNewline;
    var i := FirstNewline(s);
    FirstNewlineOfConcat(s, p);
    TakeOfConcat(s, p, i);
    DropOfConcat(s, p, i + 1);
  }

  lemma TakeOfConcat(s: Bytes, p: Bytes, i: nat)
    requires i <= |s|
    ensures (s + p)[..i] == s[..i]
  {
  }

  lemma DropOfConcat(s: Bytes, p: Bytes, i: nat)
    requires i <= |s|
    ensures (s + p)[i..] == s[i..] + p
  {
  }

  /** Later bytes never change the lines already complete. */
  lemma {:induction false} LinesOfConcat(s: Bytes, p: Bytes, n: nat)
    requires n <= |Lines(s)|
    ensures |Lines(s)| <= |Lines(s + p)|
    ensures forall k | 0 <= k < |Lines(s)| :: Lines(s + p)[k] == Lines(s)[k]
    ensures Behind(s + p, n) == Behind(s, n) + p
    decreases |s|
  {
    hide FirstNewline;
    var i := FirstNewline(s);
    if i < |s| {
      FirstLineOfConcat(s, p);
      var tail := s[i + 1..];
      LinesOfConcat(tail, p, if n == 0 then 0 else n - 1);
      assert Lines(s) == [s[..i]] + Lines(tail);
      assert Lines(s + p) == [s[..i]] + Lines(tail + p);
    } else {
      assert Lines(s) == [];
    }
  }

  // -------------------------------------------------------------- the writer, spec

  /** The writer's buffer and everything it has handed to its destination. */
  datatype Stream = Stream(buf: Bytes, attempts: seq<Bytes>)

  const EMPTY_STREAM := Stream([], [])

  /** One line leaves the buffer, redacted, for the destination. */
  function HandOver(secrets: seq<Bytes>, st: Stream): Stream
    requires AllNonEmpty(secrets) && FirstNewline(st.buf) < |st.buf|
  {
    var i := FirstNewline(st.buf);
    Stream(st.buf[i + 1..], st.attempts + [Redact(st.buf[..i], secrets) + [NEWLINE]])
  }

  /** The body of Write once the new bytes are appended: hand over line after line
      until the buffer holds no newline or the destination fails. `fails` tells
      which attempts the destination refuses, counted from the first ever. */
  function Drain(secrets: seq<Bytes>, fails: nat -> bool, st: Stream): (Stream, bool)
    requires AllNonEmpty(secrets)
    decreases |st.buf|
  {
    if FirstNewline(st.buf) == |st.buf| then (st, false)
    else if fails(|st.attempts|) then (HandOver(secrets, st), true)
    else Drain(secrets, fails, HandOver(secrets, st))
  }

  function AfterWrite(secrets: seq<Bytes>, fails: nat -> bool, st: Stream, p: Bytes): (Stream, bool)
    requires AllNonEmpty(secrets)
  {
    Drain(secrets, fails, st.(buf := st.buf + p))
  }

  /** Any number of writes; the flag is the last write's error. */
  function AfterWrites(secrets: seq<Bytes>, fails: nat -> bool, chunks: seq<Bytes>): (Stream, bool)
    requires AllNonEmpty(secrets)
    decreases |chunks|
  {
    if chunks == [] then (EMPTY_STREAM, false)
    else
      var n := |chunks| - 1;
      AfterWrite(secrets, fails, AfterWrites(secrets, fails, chunks[..n]).0, chunks[n])
  }

  function Concat(chunks: seq<Bytes>): Bytes
    decreases |chunks|
  {
    if chunks == [] then [] else Concat(chunks[..|chunks| - 1]) + chunks[|chunks| - 1]
  }

  // ---------------------------------------------------- chunking and delivery laws

  /** The first n lines of the input have been attempted, each redacted, once and
      in order, and the buffer is exactly the input behind them. */
  ghost predicate Delivered(secrets: seq<Bytes>, input: Bytes, st: Stream)
    requires AllNonEmpty(secrets)
  {
    var n := |st.attempts|;
    && n <= |Lines(input)|
    && (forall k | 0 <= k < n :: st.attempts[k] == Redact(Lines(input)[k], secrets) + [NEWLINE])
    && st.buf == Behind(input, n)
  }

  lemma {:induction false} DrainDelivers(secrets: seq<Bytes>, fails: nat -> bool, input: Bytes, st: Stream)
    requires AllNonEmpty(secrets) && Delivered(secrets, input, st)
    ensures Delivered(secrets, input, Drain(secrets, fails, st).0)
    ensures Settled(fails, input, Drain(secrets, fails, st))
    decreases |st.buf|
  {
    if FirstNewline(st.buf) == |st.buf| {
      BehindNth(input, |st.attempts|);
    } else {
      OneMoreDelivered(secrets, input, st);
      if !fails(|st.attempts|) {
        DrainDelivers(secrets, fails, input, HandOver(secrets, st));
      }
    }
  }

  /** An error means the last attempt was refused; no error, that every complete
      line has been attempted. */
  ghost predicate Settled(fails: nat -> bool, input: Bytes, result: (Stream, bool)) {
    if result.1 then result.0.attempts != [] && fails(|result.0.attempts| - 1)
    else |result.0.attempts| == |Lines(input)|
  }

  lemma OneMoreDelivered(secrets: seq<Bytes>, input: Bytes, st: Stream)
    requires AllNonEmpty(secrets) && Delivered(secrets, input, st) && FirstNewline(st.buf) < |st.buf|
    ensures Delivered(secrets, input, HandOver(secrets, st))
  {
    BehindNth(input, |st.attempts|);
  }

  /** Exactly-once delivery for every split of the input and every pattern of
      destination failures. */
  lemma {:induction false} ExactlyOnce(secrets: seq<Bytes>, fails: nat -> bool, chunks: seq<Bytes>)
    requires AllNonEmpty(secrets)
    ensures Delivered(secrets, Concat(chunks), AfterWrites(secrets, fails, chunks).0)
    ensures Settled(fails, Concat(chunks), AfterWrites(secrets, fails, chunks))
    decreases |chunks|
  {
    if chunks != [] {
      var n := |chunks| - 1;
      ExactlyOnce(secrets, fails, chunks[..n]);
      var st := AfterWrites(secrets, fails, chunks[..n]).0;
      LinesOfConcat(Concat(chunks[..n]), chunks[n], |st.attempts|);
      DrainDelivers(secrets, fails, Concat(chunks), st.(buf := st.buf + chunks[n]));
    }
  }

  /** When no attempt fails, how the input was cut into writes cannot be seen. */
  lemma ChunkIndependence(secrets: seq<Bytes>, fails: nat -> bool, chunks: seq<Bytes>, others: seq<Bytes>)
    requires AllNonEmpty(secrets) && Concat(chunks) == Concat(others)
    requires forall k: nat | k < |Lines(Concat(chunks))| :: !fails(k)
    ensures AfterWrites(secrets, fails, chunks) == AfterWrites(secrets, fails, others)
    ensures NEWLINE !in AfterWrites(secrets, fails, chunks).0.buf
  {
    ExactlyOnce(secrets, fails, chunks);
    ExactlyOnce(secrets, fails, others);
    var (st, _) := AfterWrites(secrets, fails, chunks);
    var (other, _) := AfterWrites(secrets, fails, others);
    assert st.attempts == other.attempts;
    BehindNth(Concat(chunks), |st.attempts|);
    assert st.buf == st.buf[..FirstNewline(st.buf)];
  }

  // ------------------------------------------------------------ no secret gets out

  lemma {:induction false} NoOccurrenceAcrossLines(t: Bytes, outputs: seq<Bytes>, i: nat)
    requires t != [] && NEWLINE !in t
    requires forall k | 0 <= k < |outputs| :: EndsInNewline(outputs[k]) && !Occurs(t, outputs[k][..|outputs[k]| - 1])
    ensures !OccursAt(t, Concat(outputs), i)
    decreases |outputs|
  {
    if outputs != [] {
      var n := |outputs| - 1;
      NoOccurrenceAcrossLines(t, outputs[..n], i);
      ConcatEndsInNewline(outputs[..n]);
      NoOccurrenceAcrossNewline(t, Concat(outputs[..n]), outputs[n], i);
    }
  }

  predicate EndsInNewline(s: Bytes) {
    s != [] && s[|s| - 1] == NEWLINE
  }

  lemma {:induction false} ConcatEndsInNewline(outputs: seq<Bytes>)
    requires forall k | 0 <= k < |outputs| :: EndsInNewline(outputs[k])
    ensures outputs == [] || EndsInNewline(Concat(outputs))
  {
  }

  lemma SliceOfLast(before: Bytes, last: Bytes, j: nat, n: nat)
    requires j + n < |last|
    ensures (before + last)[|before| + j..|before| + j + n] == last[..|last| - 1][j..j + n]
  {
    assert last[..|last| - 1][j..j + n] == last[j..j + n];
  }

  lemma NoOccurrenceAcrossNewline(t: Bytes, before: Bytes, last: Bytes, i: nat)
    requires t != [] && NEWLINE !in t
    requires before == [] || EndsInNewline(before)
    requires EndsInNewline(last)
    requires !OccursAt(t, before, i)
    requires !Occurs(t, last[..|last| - 1])
    ensures !OccursAt(t, before + last, i)
  {
    var all := before + last;
    if i + |t| <= |all| {
      if i + |t| <= |before| {
        assert all[i..i + |t|] == before[i..i + |t|];
      } else if i < |before| {
        assert all[i..i + |t|][|before| - 1 - i] == NEWLINE;
      } else if i + |t| == |all| {
        assert all[i..i + |t|][|t| - 1] == NEWLINE;
      } else {
        var j := i - |before|;
        assert !OccursAt(t, last[..|last| - 1], j);
        SliceOfLast(before, last, j, |t|);
      }
    }
  }

  /** No mask-safe secret ever occurs in what the destination was handed, however
      the input is cut, whichever attempts fail and whatever the other secrets are. */
  lemma NoSecretInStream(secrets: seq<Bytes>, fails: nat -> bool, chunks: seq<Bytes>, t: Bytes)
    requires t in secrets && MaskSafe(t)
    ensures !Occurs(t, Concat(AfterWrites(NonEmpty(secrets), fails, chunks).0.attempts))
  {
    var kept := NonEmpty(secrets);
    ExactlyOnce(kept, fails, chunks);
    var outputs := AfterWrites(kept, fails, chunks).0.attempts;
    forall k | 0 <= k < |outputs|
      ensures EndsInNewline(outputs[k]) && !Occurs(t, outputs[k][..|outputs[k]| - 1])
    {
      var line := Lines(Concat(chunks))[k];
      LineHoldsNoSecret(t, line, kept);
      assert outputs[k][..|outputs[k]| - 1] == Redact(line, kept);
    }
    forall i: nat ensures !OccursAt(t, Concat(outputs), i) {
      NoOccurrenceAcrossLines(t, outputs, i);
    }
  }

  // ------------------------------------------------------------ nothing else is lost

  /** When no secret occurs in any complete line, the stream passes through untouched:
      for every split into writes and every pattern of failures, what was handed over
      and what is still buffered are together the input. */
  lemma {:induction false} PassesThrough(secrets: seq<Bytes>, fails: nat -> bool, chunks: seq<Bytes>)
    requires forall t, line | t in secrets && t != [] && line in Lines(Concat(chunks)) :: !Occurs(t, line)
    ensures var st := AfterWrites(NonEmpty(secrets), fails, chunks).0;
            Concat(st.attempts) + st.buf == Concat(chunks)
  {
    var kept, input := NonEmpty(secrets), Concat(chunks);
    ExactlyOnce(kept, fails, chunks);
    var st := AfterWrites(kept, fails, chunks).0;
    var n := |st.attempts|;
    forall j | 0 <= j < n ensures st.attempts[j] == Lines(input)[j] + [NEWLINE] {
      assert Lines(input)[j] in Lines(input);
      NothingToHide(Lines(input)[j], kept);
    }
    RejoinLines(input, st.attempts, n);
    assert st.attempts[..n] == st.attempts;
  }

  /** Each line handed over is one line: it ends in its only newline. */
  lemma {:induction false} OneLineEach(secrets: seq<Bytes>, fails: nat -> bool, chunks: seq<Bytes>, k: nat)
    requires k < |AfterWrites(NonEmpty(secrets), fails, chunks).0.attempts|
    ensures var line := AfterWrites(NonEmpty(secrets), fails, chunks).0.attempts[k];
            line != [] && line[|line| - 1] == NEWLINE && NEWLINE !in line[..|line| - 1]
  {
    var kept := NonEmpty(secrets);
    ExactlyOnce(kept, fails, chunks);
    LinesHoldNoNewline(Concat(chunks), k);
    NoNewlineMade(Lines(Concat(chunks))[k], kept);
    var out := AfterWrites(kept, fails, chunks).0.attempts[k];
    assert out[..|out| - 1] == Redact(Lines(Concat(chunks))[k], kept);
  }

  lemma {:induction false} NoNewlineMade(line: Bytes, secrets: seq<Bytes>)
    requires AllNonEmpty(secrets) && NEWLINE !in line
    ensures NEWLINE !in Redact(line, secrets)
    decreases |secrets|
  {
    if secrets != [] {
      NoNewlineReplaced(line, secrets[0]);
      NoNewlineMade(ReplaceAll(line, secrets[0]), secrets[1..]);
    }
  }

  lemma {:induction false} NoNewlineReplaced(line: Bytes, t: Bytes)
    requires t != [] && NEWLINE !in line
    ensures NEWLINE !in ReplaceAll(line, t)
    decreases |line|
  {
    if |line| >= |t| {
      if OccursAt(t, line, 0) { NoNewlineReplaced(line[|t|..], t); } else { NoNewlineReplaced(line[1..], t); }
    }
  }

  /** A write reports an error if and only if an attempt of its own failed, and then
      that attempt was its last; what was attempted before stays attempted. */
  lemma {:induction false} ErrorExactlyWhen(secrets: seq<Bytes>, fails: nat -> bool, st: Stream)
    requires AllNonEmpty(secrets)
    ensures var (end, err) := Drain(secrets, fails, st);
            && st.attempts <= end.attempts
            && (err <==> exists k :: |st.attempts| <= k < |end.attempts| && fails(k))
            && (forall k | |st.attempts| <= k < |end.attempts| - 1 :: !fails(k))
            && (!err ==> FirstNewline(end.buf) == |end.buf|)
    decreases |st.buf|
  {
    if FirstNewline(st.buf) < |st.buf| {
      var next := HandOver(secrets, st);
      assert |next.attempts| == |st.attempts| + 1;
      if !fails(|st.attempts|) {
        ErrorExactlyWhen(secrets, fails, next);
      } else {
        assert fails(|st.attempts|);
      }
    }
  }

  /** In bytes: "a s3 b" with the secret "s3" goes out as "a **** b". */
  lemma {:induction false} MaskedInBytes()
    ensures Redact([97, 32, 115, 51, 32, 98], [[115, 51]]) == [97, 32, 42, 42, 42, 42, 32, 98]
  {
    hide ReplaceAll;
    var a: Bytes, t: Bytes, b: Bytes := [97, 32], [115, 51], [32, 98];
    var s := a + t + b;
    assert s == [97, 32, 115, 51, 32, 98];
    forall i: nat | i < 2 ensures !OccursAt(t, s, i) {
      assert s[i..i + 2][0] == s[i];
    }
    LeftmostReplaced(a, t, b);
    forall i: nat ensures !OccursAt(t, b, i) {
      if i + 2 <= |b| { assert b[i..i + 2][0] == b[i]; }
    }
    Untouched(b, t);
    JustOne(s, t);
  }

  lemma JustOne(s: Bytes, t: Bytes)
    requires t != []
    ensures Redact(s, [t]) == ReplaceAll(s, t)
  {
    hide ReplaceAll;
    OneSecretMore(s, [], t);
    assert [] + [t] == [t];
  }

  /** In bytes: "a", newline, "b", newline, "c" are two complete lines. */
  lemma LinesInBytes()
    ensures Lines([97, 10, 98, 10, 99]) == [[97], [98]]
  {
    var s: Bytes := [97, 10, 98, 10, 99];
    FirstNewlineIs(s, 1);
    assert s[2..] == [98, 10, 99];
    FirstNewlineIs(s[2..], 1);
    assert s[2..][2..] == [99];
    FirstNewlineIs(s[2..][2..], 1);
    assert s[..1] == [97] && s[2..][..1] == [98];
  }

  lemma {:induction false} FirstNewlineIs(s: Bytes, i: nat)
    requires i <= |s| && NEWLINE !in s[..i] && (i < |s| ==> s[i] == NEWLINE)
    ensures FirstNewline(s) == i
  {
  }

  // -------------------------------------------- one secret: exactly when it is safe

  predicate NeverFails(k: nat) { false }

  /** What the destination receives for one write of `input`, nothing failing. */
  function Output(secret: Bytes, input: Bytes): Bytes
    requires secret != []
  {
    Concat(AfterWrites([secret], NeverFails, [input]).0.attempts)
  }

  lemma OutputOfOneLine(secret: Bytes, line: Bytes)
    requires secret != [] && NEWLINE !in line
    ensures Output(secret, line + [NEWLINE]) == ReplaceAll(line, secret) + [NEWLINE]
  {
    var input := line + [NEWLINE];
    ExactlyOnce([secret], NeverFails, [input]);
    assert Concat([input]) == Concat([]) + input == input;
    FirstNewlineAtEnd(line);
    assert input[..|line|] == line && input[|line| + 1..] == [];
    assert Lines(input) == [line];
    assert Redact(line, [secret]) == ReplaceAll(line, secret);
    var outputs := AfterWrites([secret], NeverFails, [input]).0.attempts;
    assert outputs[..0] == [];
    assert Concat(outputs) == Concat([]) + outputs[0];
  }

  lemma ShortUntouched(s: Bytes, secret: Bytes)
    requires |s| < |secret|
    ensures ReplaceAll(s, secret) == s
  {
  }

  lemma OccursBetween(a: Bytes, t: Bytes, b: Bytes)
    ensures Occurs(t, a + t + b)
  {
    assert (a + t + b)[|a|..|a| + |t|] == t;
    assert OccursAt(t, a + t + b, |a|);
  }

  lemma {:induction false} LeadingStarLeaks(k: Bytes)
    requires k != [] && k[0] == STAR
    ensures Occurs(k, ReplaceAll(k + k[1..], k))
  {
    var v := k[1..];
    assert [] + k + v == k + v;
    LeftmostReplaced([], k, v);
    ShortUntouched(v, k);
    MaskEndsIn(k);
    OccursBetween([STAR, STAR, STAR], k, []);
  }

  lemma MaskEndsIn(k: Bytes)
    requires k != [] && k[0] == STAR
    ensures [] + MASK + k[1..] == [STAR, STAR, STAR] + k + []
  {
    assert k == [STAR] + k[1..];
  }

  lemma {:induction false} TrailingStarLeaks(k: Bytes)
    requires k != [] && k[0] != STAR && k[|k| - 1] == STAR
    ensures Occurs(k, ReplaceAll(k[..|k| - 1] + k, k))
  {
    var a := k[..|k| - 1];
    assert a + k + [] == a + k;
    forall i: nat | i < |a| ensures !OccursAt(k, a + k + [], i) {
      NoMatchBeforeStar(k, i);
    }
    LeftmostReplaced(a, k, []);
    ShortUntouched([], k);
    MaskStarts(k);
    OccursBetween([], k, [STAR, STAR, STAR]);
  }

  lemma NoMatchBeforeStar(k: Bytes, i: nat)
    requires i < |k| - 1 && k[0] != STAR && k[|k| - 1] == STAR
    ensures !OccursAt(k, k[..|k| - 1] + k + [], i)
  {
    var s := k[..|k| - 1] + k + [];
    assert s[i..i + |k|][0] == k[i];
    assert s[i..i + |k|][|k| - 1] == k[i];
  }

  lemma MaskStarts(k: Bytes)
    requires k != [] && k[|k| - 1] == STAR
    ensures k[..|k| - 1] + MASK + [] == [] + k + [STAR, STAR, STAR]
  {
    assert k == k[..|k| - 1] + [STAR];
  }

  lemma FirstMask(k: Bytes, bound: nat) returns (i: nat)
    requires OccursAt(MASK, k, bound)
    ensures OccursAt(MASK, k, i)
    ensures forall j: nat | j < i :: !OccursAt(MASK, k, j)
    decreases bound
  {
    i := bound;
    if j: nat :| j < bound && OccursAt(MASK, k, j) {
      i := FirstMask(k, j);
    }
  }

  lemma {:induction false} InnerMaskLeaks(k: Bytes, i: nat)
    requires k != [] && k[0] != STAR
    requires OccursAt(MASK, k, i)
    requires forall j: nat | j < i :: !OccursAt(MASK, k, j)
    ensures Occurs(k, ReplaceAll(k[..i] + k + k[i + 4..], k))
  {
    var u, v := k[..i], k[i + 4..];
    forall j: nat | j < i ensures !OccursAt(k, u + k + v, j) {
      NoEarlierMatch(k, v, i, j);
    }
    LeftmostReplaced(u, k, v);
    ShortUntouched(v, k);
    AroundMask(k, i);
    OccursBetween([], k, []);
  }

  lemma AroundMask(k: Bytes, i: nat)
    requires OccursAt(MASK, k, i)
    ensures k[..i] + MASK + k[i + 4..] == [] + k + []
  {
    assert k == k[..i] + k[i..i + 4] + k[i + 4..];
  }

  /** In k[..i] + k + v no match starts before the one behind k[..i]. */
  lemma NoEarlierMatch(k: Bytes, v: Bytes, i: nat, j: nat)
    requires OccursAt(MASK, k, i) && j < i
    requires forall m: nat | m < i :: !OccursAt(MASK, k, m)
    ensures !OccursAt(k, k[..i] + k + v, j)
  {
    var s := k[..i] + k + v;
    assert !OccursAt(MASK, k, j);
    assert s[j..j + |k|][i..i + 4] == s[j + i..j + i + 4];
    assert s[j + i..j + i + 4] == k[j..j + 4];
  }

  /** With one secret, as Init configures it, the writer hides it on every input
      exactly when the secret is mask-safe. */
  lemma SingleSecretExactlySafe(k: Bytes)
    requires k != []
    ensures MaskSafe(k) <==> forall input: Bytes :: !Occurs(k, Output(k, input))
  {
    if MaskSafe(k) {
      forall input: Bytes ensures !Occurs(k, Output(k, input)) {
        assert NonEmpty([k]) == [k] + NonEmpty([]) == [k];
        NoSecretInStream([k], NeverFails, [input], k);
      }
    } else {
      var input := Leak(k);
      assert Occurs(k, Output(k, input));
    }
  }

  lemma Leak(k: Bytes) returns (input: Bytes)
    requires k != [] && !MaskSafe(k)
    ensures Occurs(k, Output(k, input))
  {
    if NEWLINE in k {
      input := k + [NEWLINE];
      NewlineLeaks(k);
    } else {
      var line := LeakingLine(k);
      input := line + [NEWLINE];
      OutputOfOneLine(k, line);
      var i: nat :| OccursAt(k, ReplaceAll(line, k), i);
      assert Output(k, input)[i..i + |k|] == ReplaceAll(line, k)[i..i + |k|];
      assert OccursAt(k, Output(k, input), i);
    }
  }

  lemma LeakingLine(k: Bytes) returns (line: Bytes)
    requires k != [] && !MaskSafe(k) && NEWLINE !in k
    ensures NEWLINE !in line && Occurs(k, ReplaceAll(line, k))
  {
    if k[0] == STAR {
      line := k + k[1..];
      LeadingStarLeaks(k);
    } else if k[|k| - 1] == STAR {
      line := k[..|k| - 1] + k;
      TrailingStarLeaks(k);
    } else {
      var bound: nat :| OccursAt(MASK, k, bound);
      var i := FirstMask(k, bound);
      line := k[..i] + k + k[i + 4..];
      InnerMaskLeaks(k, i);
    }
  }

  /** A secret with a newline never matches a line, so it passes through whole. */
  lemma NewlineLeaks(k: Bytes)
    requires k != [] && NEWLINE in k
    ensures Occurs(k, Output(k, k + [NEWLINE]))
  {
    var input := k + [NEWLINE];
    PassedThrough(k, input);
    assert input[0..|k|] == k;
    assert OccursAt(k, input, 0);
  }

  lemma PassedThrough(k: Bytes, input: Bytes)
    requires NEWLINE in k && EndsInNewline(input)
    ensures Output(k, input) == input
  {
    ExactlyOnce([k], NeverFails, [input]);
    assert Concat([input]) == Concat([]) + input == input;
    var outputs := AfterWrites([k], NeverFails, [input]).0.attempts;
    var n := |Lines(input)|;
    forall j | 0 <= j < n ensures outputs[j] == Lines(input)[j] + [NEWLINE] {
      LinesHoldNoNewline(input, j);
      LineUntouched(Lines(input)[j], k);
    }
    RejoinLines(input, outputs, n);
    EndsWithLine(input);
    assert outputs[..n] == outputs;
  }

  lemma LineUntouched(line: Bytes, k: Bytes)
    requires NEWLINE in k && NEWLINE !in line
    ensures Redact(line, [k]) == line
  {
    var m :| 0 <= m < |k| && k[m] == NEWLINE;
    forall i: nat ensures !OccursAt(k, line, i) {
      if i + |k| <= |line| { assert line[i..i + |k|][m] == line[i + m]; }
    }
    Untouched(line, k);
    assert Redact(line, [k]) == ReplaceAll(line, k);
  }

  lemma {:induction false} LinesHoldNoNewline(s: Bytes, j: nat)
    requires j < |Lines(s)|
    ensures NEWLINE !in Lines(s)[j]
    decreases |s|
  {
    if j > 0 { LinesHoldNoNewline(s[FirstNewline(s) + 1..], j - 1); }
  }

  lemma {:induction false} RejoinLines(s: Bytes, outputs: seq<Bytes>, n: nat)
    requires n <= |Lines(s)| && n <= |outputs|
    requires forall j | 0 <= j < n :: outputs[j] == Lines(s)[j] + [NEWLINE]
    ensures Concat(outputs[..n]) + Behind(s, n) == s
    decreases n
  {
    if n > 0 {
      RejoinLines(s, outputs, n - 1);
      BehindNth(s, n - 1);
      var rest := Behind(s, n - 1);
      var i := FirstNewline(rest);
      ConcatSnoc(outputs, n);
      RejoinOne(Concat(outputs[..n - 1]), rest, i);
    }
  }

  lemma ConcatSnoc(outputs: seq<Bytes>, n: nat)
    requires 0 < n <= |outputs|
    ensures Concat(outputs[..n]) == Concat(outputs[..n - 1]) + outputs[n - 1]
  {
    assert outputs[..n][..n - 1] == outputs[..n - 1];
  }

  lemma RejoinOne(before: Bytes, rest: Bytes, i: nat)
    requires i < |rest| && rest[i] == NEWLINE
    ensures before + (rest[..i] + [NEWLINE]) + rest[i + 1..] == before + rest
  {
    assert rest == rest[..i] + [rest[i]] + rest[i + 1..];
  }

  lemma {:induction false} EndsWithLine(s: Bytes)
    requires EndsInNewline(s)
    ensures Behind(s, |Lines(s)|) == []
    decreases |s|
  {
    var i := FirstNewline(s);
    assert s[|s| - 1] == NEWLINE;
    assert i < |s|;
    if s[i + 1..] == [] {
      assert Lines([]) == [];
    } else {
      EndsWithLine(s[i + 1..]);
    }
  }

  // ---------------------------------------------------------- the writer, in place

  /** The destination: it records what it is handed and fails as it pleases. */
  class Sink {
    var attempts: seq<Bytes>
    const fails: nat -> bool

    constructor (fails: nat -> bool)
      ensures attempts == [] && this.fails == fails
    {
      attempts := [];
      this.fails := fails;
    }

    method WriteString(s: Bytes) returns (failed: bool)
      modifies this
      ensures attempts == old(attempts) + [s]
      ensures failed == fails(|old(attempts)|)
    {
      failed := fails(|attempts|);
      attempts := attempts + [s];
    }
  }

  class LineRedactingWriter {
    const dst: Sink
    const secrets: seq<Bytes>
    var buf: Bytes

    ghost predicate Valid() {
      AllNonEmpty(secrets)
    }

    ghost function State(): Stream
      reads this, dst
    {
      Stream(buf, dst.attempts)
    }

    constructor (dst: Sink, secrets: seq<Bytes>)
      ensures Valid() && this.dst == dst && buf == []
      ensures this.secrets == NonEmpty(secrets)
    {
      this.dst := dst;
      var filtered: seq<Bytes> := [];
      for i := 0 to |secrets|
        invariant filtered == NonEmpty(secrets[..i])
      {
        OneMoreSecret(secrets, i);
        if secrets[i] != [] {
          filtered := filtered + [secrets[i]];
        }
      }
      assert secrets[..|secrets|] == secrets;
      this.secrets := filtered;
      this.buf := [];
    }

    method Write(p: Bytes) returns (n: nat, failed: bool)
      requires Valid()
      modifies this, dst
      ensures n == |p|
      ensures (State(), failed) == AfterWrite(secrets, dst.fails, old(State()), p)
    {
      n := |p|;
      failed := false;
      buf := buf + p;
      ghost var goal := Drain(secrets, dst.fails, State());
      while true
        invariant Drain(secrets, dst.fails, State()) == goal
        decreases |buf|
      {
        var i := FirstNewline(buf);
        if i == |buf| {
          break;
        }
        var line := buf[..i];
        buf := buf[i + 1..];
        ghost var whole := line;
        for k := 0 to |secrets|
          invariant Redact(line, secrets[k..]) == Redact(whole, secrets)
        {
          assert secrets[k..][1..] == secrets[k + 1..];
          line := ReplaceAll(line, secrets[k]);
        }
        assert secrets[|secrets|..] == [];
        failed := dst.WriteString(line + [NEWLINE]);
        if failed {
          return;
        }
      }
    }
  }
}
