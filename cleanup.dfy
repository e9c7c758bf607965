/** Clean-up of the model's reply before it is parsed (app.py lines 73-81):
    a leading ```json marker and a trailing ``` marker are taken off and the
    rest is trimmed. The reply arrives already trimmed (app.py line 22). */
module Cleanup {
  import opened PyStr

  /** The opening marker of a JSON code block. */
  const JsonFence: string := "```json"
  /** The closing marker of a code block. */
  const Fence: string := "```"

  /** The reply with the markers taken off, before the final trim: the
      opening marker only when the reply starts with it, then the closing
      marker only when what remains ends with it. */
  function Unfenced(raw: string): (r: string)
    ensures |r| <= |raw|
  {
    var body := if StartsWith(raw, JsonFence) then raw[|JsonFence|..] else raw;
    if EndsWith(body, Fence) then body[..|body| - |Fence|] else body
  }

  /** The text handed to the JSON parser. */
  function Cleaned(raw: string): (r: string)
    ensures IsStripped(r)
    ensures |r| <= |raw|
  {
    Strip(Unfenced(raw))
  }

  /** The clean-up as the page performs it: one variable updated by a
      guarded `replace("```json", "", 1)`, a guarded `[:-3]` and `strip()`. */
  method CleanResponse(raw: string) returns (cleaned: string)
    ensures cleaned == Cleaned(raw)
  {
    cleaned := raw;
    if StartsWith(cleaned, JsonFence) {
      ReplaceFirstAtStart(cleaned, JsonFence);
      cleaned := ReplaceFirst(cleaned, JsonFence, "");
    }
    ghost var body := cleaned;
    assert body == if StartsWith(raw, JsonFence) then raw[|JsonFence|..] else raw;
    if EndsWith(cleaned, Fence) {
      SliceDropsLast(cleaned, 3);
      cleaned := SliceTo(cleaned, -3);
    }
    assert cleaned == Unfenced(raw);
    cleaned := Strip(cleaned);
  }

  /** Taking off the markers leaves one contiguous piece of the reply. */
  lemma UnfencedIsSlice(raw: string) returns (a: nat, b: nat)
    ensures a <= b <= |raw| && Unfenced(raw) == raw[a..b]
  {
    var body := if StartsWith(raw, JsonFence) then raw[|JsonFence|..] else raw;
    a := |raw| - |body|;
    assert body == raw[a..];
    b := if EndsWith(body, Fence) then |raw| - |Fence| else |raw|;
    assert Unfenced(raw) == body[..b - a];
  }

  /** A slice of a slice is a slice of the original. */
  lemma SliceOfSlice(s: string, a: nat, b: nat, i: nat, j: nat)
    requires a <= b <= |s| && i <= j <= b - a
    ensures s[a..b][i..j] == s[a + i..a + j]
  {
    var t := s[a..b];
    assert forall k :: 0 <= k < j - i ==> t[i..j][k] == t[i + k] == s[a + i + k];
  }

  /** The cleaned text is one contiguous piece of the reply. */
  lemma CleanedIsSlice(raw: string) returns (i: nat, j: nat)
    ensures i <= j <= |raw| && Cleaned(raw) == raw[i..j]
  {
    var a, b := UnfencedIsSlice(raw);
    var u := raw[a..b];
    assert Cleaned(raw) == Strip(u);
    var i', j' := StripIsSlice(u);
    i, j := a + i', a + j';
    SliceOfSlice(raw, a, b, i', j');
    assert Strip(u) == raw[i..j];
  }

  /** A reply with neither marker is only trimmed; a reply trimmed already,
      as every reply is, comes through unchanged. */
  lemma CleanedWithoutFences(raw: string)
    requires !StartsWith(raw, JsonFence) && !EndsWith(raw, Fence)
    ensures Cleaned(raw) == Strip(raw)
    ensures IsStripped(raw) ==> Cleaned(raw) == raw
  {
    if IsStripped(raw) {
      StripStrippedIsIdentity(raw);
    }
  }

  /** A body wrapped in an opening and a closing marker comes back as the
      trimmed body, whatever markers the body itself holds. */
  lemma {:induction false} FencedRoundTrip(body: string)
    ensures Cleaned(JsonFence + body + Fence) == Strip(body)
  {
    var raw := JsonFence + body + Fence;
    assert raw[..|JsonFence|] == JsonFence;
    assert raw[|JsonFence|..] == body + Fence;
    var rest := body + Fence;
    assert rest[|rest| - |Fence|..] == Fence;
    assert rest[..|rest| - |Fence|] == body;
  }

  /** Only the one leading opening marker is removed: a second one right
      behind it stays in the text. */
  lemma {:induction false} OpeningFenceRemovedOnce(rest: string)
    requires !EndsWith(rest, Fence)
    ensures Cleaned(JsonFence + rest) == Strip(rest)
  {
    var raw := JsonFence + rest;
    assert raw[..|JsonFence|] == JsonFence;
    assert raw[|JsonFence|..] == rest;
  }

  /** The closing marker is removed even without an opening marker, and
      only once: a body that itself ends in a marker keeps it. */
  lemma {:induction false} ClosingFenceRemovedOnce(body: string)
    requires !StartsWith(body + Fence, JsonFence)
    ensures Cleaned(body + Fence) == Strip(body)
  {
    var raw := body + Fence;
    assert raw[|raw| - |Fence|..] == Fence;
    assert raw[..|raw| - |Fence|] == body;
  }

  /** The closing marker is looked for after the opening one is gone, so
      the ``` inside a lone opening marker is not taken as a closing one. */
  lemma OpeningFenceAloneCleansToEmpty()
    ensures Cleaned(JsonFence) == []
  {
    assert StartsWith(JsonFence, JsonFence);
    assert Unfenced(JsonFence) == [];
  }

  /** A reply that carried a marker loses at least the marker's three
      backticks. */
  lemma {:induction false} FencedReplyShrinks(raw: string)
    requires StartsWith(raw, JsonFence) || EndsWith(raw, Fence)
    ensures |Cleaned(raw)| <= |raw| - |Fence|
  {
  }

  /** Clean-up is not idempotent: a reply holding two opening markers, such
      as ```json```json{}```, loses one marker per pass. */
  lemma {:induction false} CleanedNotIdempotent(b: string)
    requires b != [] && IsStripped(b) && !EndsWith(b, Fence)
    ensures Cleaned(JsonFence + JsonFence + b + Fence) == JsonFence + b
    ensures Cleaned(Cleaned(JsonFence + JsonFence + b + Fence)) == b
  {
    var inner := JsonFence + b;
    assert JsonFence + JsonFence + b + Fence == JsonFence + inner + Fence;
    FencedRoundTrip(inner);
    assert IsStripped(inner) by {
      assert inner[0] == '`' && inner[|inner| - 1] == b[|b| - 1];
    }
    StripStrippedIsIdentity(inner);
    OpeningFenceRemovedOnce(b);
    StripStrippedIsIdentity(b);
  }

  /** A cleaned text that shows no marker at either end is a fixed point of
      the clean-up. */
  lemma CleanedFixedPoint(raw: string)
    requires !StartsWith(Cleaned(raw), JsonFence) && !EndsWith(Cleaned(raw), Fence)
    ensures Cleaned(Cleaned(raw)) == Cleaned(raw)
  {
    CleanedWithoutFences(Cleaned(raw));
  }
}
