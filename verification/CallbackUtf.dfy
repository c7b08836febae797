/** CallbackEnv::isValidUtf (android/app/jni/com_android_bluetooth.h) against a grammar. */
module CallbackUtf {

  /** Bit pattern 10xx xxxx. */
  predicate IsContinuation(b: bv8) {
    b & 0xC0 == 0x80
  }

  /** How many continuation bytes a lead byte announces; -1 for a byte that cannot lead. */
  function Following(b: bv8): (n: int)
    ensures -1 <= n <= 3
  {
    if b & 0x80 == 0 then 0
    else if b & 0xE0 == 0xC0 then 1
    else if b & 0xF0 == 0xE0 then 2
    else if b & 0xF8 == 0xF0 then 3
    else -1
  }

  /** One lead byte with its continuation bytes. */
  predicate IsGroup(g: seq<bv8>) {
    && g != []
    && Following(g[0]) == |g| - 1
    && forall i :: 1 <= i < |g| ==> IsContinuation(g[i])
  }

  function Flatten(groups: seq<seq<bv8>>): seq<bv8> {
    if groups == [] then [] else groups[0] + Flatten(groups[1..])
  }

  ghost predicate SplitsInto(text: seq<bv8>, groups: seq<seq<bv8>>) {
    Flatten(groups) == text && forall i :: 0 <= i < |groups| ==> IsGroup(groups[i])
  }

  /** The text is a sequence of groups. */
  ghost predicate IsGrouped(text: seq<bv8>) {
    exists groups :: SplitsInto(text, groups)
  }

  /** The text starts with a group. */
  predicate StartsWithGroup(text: seq<bv8>) {
    && text != []
    && 0 <= Following(text[0]) < |text|
    && IsGroup(text[..1 + Following(text[0])])
  }

  /** Groups can be recognised greedily: the lead byte decides. */
  lemma GroupedUnfolds(text: seq<bv8>)
    requires text != []
    ensures IsGrouped(text) <==>
            StartsWithGroup(text) && IsGrouped(text[1 + Following(text[0])..])
  {
    if IsGrouped(text) {
      var groups :| SplitsInto(text, groups);
      var g := groups[0];
      assert IsGroup(g);
      assert text[..|g|] == g && text[|g|..] == Flatten(groups[1..]);
      assert SplitsInto(text[|g|..], groups[1..]);
    }
    if StartsWithGroup(text) && IsGrouped(text[1 + Following(text[0])..]) {
      var n := 1 + Following(text[0]);
      var groups :| SplitsInto(text[n..], groups);
      var all := [text[..n]] + groups;
      assert all[1..] == groups;
      assert SplitsInto(text, all);
    }
  }

  lemma GroupedEmpty()
    ensures IsGrouped([])
  {
    assert SplitsInto([], []);
  }

  /** A C string in memory: its only NUL is the last byte. */
  ghost predicate IsCString(memory: seq<bv8>) {
    && memory != [] && memory[|memory| - 1] == 0
    && forall i :: 0 <= i < |memory| - 1 ==> memory[i] != 0
  }

  function Text(memory: seq<bv8>): seq<bv8>
    requires memory != []
  {
    memory[..|memory| - 1]
  }

  /** `n` continuation bytes follow position `i`. */
  predicate Continues(memory: seq<bv8>, i: nat, n: nat) {
    i + n <= |memory| && forall j :: i <= j < i + n ==> IsContinuation(memory[j])
  }

  lemma NulIsNoContinuation()
    ensures !IsContinuation(0)
  {
  }

  lemma TextTail(memory: seq<bv8>, i: nat)
    requires IsCString(memory) && i < |memory|
    ensures Text(memory)[i..] == memory[i..|memory| - 1]
    ensures memory[i] == 0 <==> i == |memory| - 1
  {
  }

  /** What the rest of the text must look like for the whole to be accepted. */
  lemma AcceptStep(memory: seq<bv8>, i: nat)
    requires IsCString(memory) && i < |memory| - 1
    ensures var n := Following(memory[i]);
            IsGrouped(Text(memory)[i..]) <==>
            && n >= 0 && Continues(memory, i + 1, n)
            && i + 1 + n < |memory| && IsGrouped(Text(memory)[i + 1 + n..])
  {
    var text := Text(memory)[i..];
    var n := Following(memory[i]);
    NulIsNoContinuation();
    GroupedUnfolds(text);
    assert text[0] == memory[i];
    if n >= 0 && Continues(memory, i + 1, n) {
      ContinuesWithinText(memory, i + 1, n);
      assert text[1 + n..] == Text(memory)[i + 1 + n..];
      var g := text[..1 + n];
      forall j | 1 <= j < |g| ensures IsContinuation(g[j]) {
        assert g[j] == memory[i + j];
      }
    }
    if StartsWithGroup(text) {
      var g := text[..1 + n];
      forall j | i + 1 <= j < i + 1 + n ensures IsContinuation(memory[j]) {
        assert memory[j] == g[j - i];
      }
      assert text[1 + n..] == Text(memory)[i + 1 + n..];
    }
  }

  lemma ContinuesWithinText(memory: seq<bv8>, i: nat, n: nat)
    requires IsCString(memory) && i < |memory| && Continues(memory, i, n)
    ensures i + n < |memory|
  {
    NulIsNoContinuation();
    assert n > 0 ==> IsContinuation(memory[i + n - 1]);
  }

  // ----- the loop

  lemma FollowingByNibble(b: bv8)
    ensures b >> 4 < 0x08 ==> Following(b) == 0
    ensures 0x08 <= b >> 4 < 0x0C ==> Following(b) == -1
    ensures b >> 4 == 0x0C || b >> 4 == 0x0D ==> Following(b) == 1
    ensures b >> 4 == 0x0E ==> Following(b) == 2
    ensures b >> 4 == 0x0F ==> Following(b) == if b & 0x08 == 0 then 3 else -1
  {
  }

  lemma ContinuationIsNotLast(memory: seq<bv8>, i: nat)
    requires IsCString(memory) && i < |memory| && IsContinuation(memory[i])
    ensures i + 1 < |memory|
  {
    NulIsNoContinuation();
  }

  /** Reads only up to the terminating NUL, since `memory` ends there, and accepts exactly the texts
      that split into groups. */
  method IsValidUtf(memory: seq<bv8>) returns (valid: bool)
    requires IsCString(memory)
    ensures valid <==> IsGrouped(Text(memory))
  {
    hide IsCString, IsGrouped, IsContinuation, Following;
    CStringBounds(memory);
    var i := 0;
    assert Text(memory)[0..] == Text(memory);
    while memory[i] != 0
      invariant 0 <= i < |memory|
      invariant IsGrouped(Text(memory)) <==> IsGrouped(Text(memory)[i..])
      decreases |memory| - i
    {
      TextTail(memory, i);
      AcceptStep(memory, i);
      FollowingByNibble(memory[i]);
      ghost var start := i + 1;
      var utf8 := memory[i];
      i := i + 1;
      var high := utf8 >> 4;
      if 0x08 <= high < 0x0C {
        return false;
      } else if 0x0C <= high {
        if high == 0x0F {
          if utf8 & 0x08 != 0 {
            return false;
          }
          if !IsContinuation(memory[i]) {
            return false;
          }
          ContinuationIsNotLast(memory, i);
          i := i + 1;
        }
        if high == 0x0F || high == 0x0E {
          if !IsContinuation(memory[i]) {
            return false;
          }
          ContinuationIsNotLast(memory, i);
          i := i + 1;
        }
        if !IsContinuation(memory[i]) {
          return false;
        }
        ContinuationIsNotLast(memory, i);
        i := i + 1;
      }
      assert Continues(memory, start, i - start);
    }
    TextTail(memory, i);
    assert Text(memory)[i..] == [];
    GroupedEmpty();
    valid := true;
  }

  lemma CStringBounds(memory: seq<bv8>)
    requires IsCString(memory)
    ensures |memory| > 0
  {
  }

  // ----- section 4 of RFC 3629

  predicate In(b: bv8, lo: bv8, hi: bv8) {
    lo <= b <= hi
  }

  predicate IsTail(b: bv8) {
    In(b, 0x80, 0xBF)
  }

  /** UTF8-char of the grammar. */
  predicate IsRfcChar(g: seq<bv8>) {
    || (|g| == 1 && In(g[0], 0x00, 0x7F))
    || (|g| == 2 && In(g[0], 0xC2, 0xDF) && IsTail(g[1]))
    || (|g| == 3 && IsTail(g[2]) &&
          (|| (g[0] == 0xE0 && In(g[1], 0xA0, 0xBF))
           || (In(g[0], 0xE1, 0xEC) && IsTail(g[1]))
           || (g[0] == 0xED && In(g[1], 0x80, 0x9F))
           || (In(g[0], 0xEE, 0xEF) && IsTail(g[1]))))
    || (|g| == 4 && IsTail(g[2]) && IsTail(g[3]) &&
          (|| (g[0] == 0xF0 && In(g[1], 0x90, 0xBF))
           || (In(g[0], 0xF1, 0xF3) && IsTail(g[1]))
           || (g[0] == 0xF4 && In(g[1], 0x80, 0x8F))))
  }

  lemma TailIsContinuation(b: bv8)
    ensures IsTail(b) <==> IsContinuation(b)
  {
  }

  lemma LeadRanges(b: bv8)
    ensures In(b, 0x00, 0x7F) <==> Following(b) == 0
    ensures In(b, 0xC0, 0xDF) <==> Following(b) == 1
    ensures In(b, 0xE0, 0xEF) <==> Following(b) == 2
    ensures In(b, 0xF0, 0xF7) <==> Following(b) == 3
  {
  }

  lemma RfcCharIsGroup(g: seq<bv8>)
    requires IsRfcChar(g)
    ensures IsGroup(g)
  {
    hide IsContinuation, Following;
    LeadRanges(g[0]);
    forall i | 1 <= i < |g| ensures IsContinuation(g[i]) {
      TailIsContinuation(g[i]);
    }
  }

  /** Every text of the RFC 3629 grammar without NUL is accepted. */
  lemma RfcTextIsGrouped(chars: seq<seq<bv8>>)
    requires forall i :: 0 <= i < |chars| ==> IsRfcChar(chars[i])
    ensures IsGrouped(Flatten(chars))
  {
    forall i | 0 <= i < |chars| ensures IsGroup(chars[i]) {
      RfcCharIsGroup(chars[i]);
    }
    assert SplitsInto(Flatten(chars), chars);
  }

  /** A form longer than its code point needs. */
  predicate Overlong(g: seq<bv8>) {
    || (|g| == 2 && g[0] < 0xC2)
    || (|g| == 3 && g[0] == 0xE0 && g[1] < 0xA0)
    || (|g| == 4 && g[0] == 0xF0 && g[1] < 0x90)
  }

  /** An encoded surrogate, U+D800 to U+DFFF. */
  predicate Surrogate(g: seq<bv8>) {
    |g| == 3 && g[0] == 0xED && g[1] >= 0xA0
  }

  /** A code point above U+10FFFF. */
  predicate TooLarge(g: seq<bv8>) {
    |g| == 4 && (g[0] > 0xF4 || (g[0] == 0xF4 && g[1] >= 0x90))
  }

  predicate BeyondRfc(g: seq<bv8>) {
    Overlong(g) || Surrogate(g) || TooLarge(g)
  }

  /** What is accepted beyond the grammar: exactly overlong forms, surrogates and code points above
      U+10FFFF. */
  lemma GroupIsRfcCharIff(g: seq<bv8>)
    requires IsGroup(g)
    ensures IsRfcChar(g) <==> !BeyondRfc(g)
  {
    hide IsContinuation, Following;
    LeadRanges(g[0]);
    if |g| > 1 { TailIsContinuation(g[1]); }
    if |g| > 2 { TailIsContinuation(g[2]); }
    if |g| > 3 { TailIsContinuation(g[3]); }
  }

  ghost predicate IsRfcText(text: seq<bv8>) {
    exists chars :: Flatten(chars) == text && forall i :: 0 <= i < |chars| ==> IsRfcChar(chars[i])
  }

  ghost predicate SplitsWithinRfc(text: seq<bv8>, groups: seq<seq<bv8>>) {
    SplitsInto(text, groups) && forall i :: 0 <= i < |groups| ==> !BeyondRfc(groups[i])
  }

  /** A text is one of the grammar exactly when it splits into groups none of which is beyond it. */
  lemma RfcTextIff(text: seq<bv8>)
    ensures IsRfcText(text) <==> exists groups :: SplitsWithinRfc(text, groups)
  {
    hide IsRfcChar, BeyondRfc, IsGroup;
    if IsRfcText(text) {
      var chars :| Flatten(chars) == text && forall i :: 0 <= i < |chars| ==> IsRfcChar(chars[i]);
      forall i | 0 <= i < |chars| ensures IsGroup(chars[i]) && !BeyondRfc(chars[i]) {
        RfcCharIsGroup(chars[i]);
        GroupIsRfcCharIff(chars[i]);
      }
      assert SplitsWithinRfc(text, chars);
    }
    if groups :| SplitsWithinRfc(text, groups) {
      forall i | 0 <= i < |groups| ensures IsRfcChar(groups[i]) {
        GroupIsRfcCharIff(groups[i]);
      }
    }
  }

  /** A text splits into groups in one way only. */
  lemma {:induction false} SplitIsUnique(text: seq<bv8>, a: seq<seq<bv8>>, b: seq<seq<bv8>>)
    requires SplitsInto(text, a) && SplitsInto(text, b)
    ensures a == b
    decreases |a|
  {
    hide Following, IsContinuation;
    assert a != [] ==> IsGroup(a[0]);
    assert b != [] ==> IsGroup(b[0]);
    if a != [] && b != [] {
      assert text[0] == a[0][0] == b[0][0];
      assert a[0] == text[..|a[0]|] == b[0];
      SplitIsUnique(text[|a[0]|..], a[1..], b[1..]);
      assert a == [a[0]] + a[1..] && b == [b[0]] + b[1..];
    }
  }

  /** An accepted text is in the grammar exactly when none of its groups is beyond it. */
  lemma AcceptedIsRfcIff(text: seq<bv8>, groups: seq<seq<bv8>>)
    requires SplitsInto(text, groups)
    ensures IsRfcText(text) <==> forall i :: 0 <= i < |groups| ==> !BeyondRfc(groups[i])
  {
    hide IsRfcText, BeyondRfc;
    RfcTextIff(text);
    if others :| SplitsWithinRfc(text, others) {
      SplitIsUnique(text, groups, others);
    }
    assert (forall i :: 0 <= i < |groups| ==> !BeyondRfc(groups[i])) ==> SplitsWithinRfc(text, groups);
  }

  /** A group beyond the grammar is by itself a text that is accepted and that the grammar lacks. */
  lemma BeyondRfcIsAccepted(g: seq<bv8>)
    requires IsGroup(g) && BeyondRfc(g)
    ensures IsGrouped(g) && !IsRfcText(g)
  {
    hide IsRfcText, BeyondRfc;
    assert [g][1..] == [] && g + [] == g && Flatten([g]) == g + Flatten([g][1..]);
    assert SplitsInto(g, [g]);
    AcceptedIsRfcIff(g, [g]);
    assert BeyondRfc([g][0]);
  }

  /** All three kinds occur: an overlong form, a surrogate and a code point above U+10FFFF. */
  lemma AcceptsMoreThanRfc()
    ensures Overlong([0xC0, 0x80]) && IsGrouped([0xC0, 0x80]) && !IsRfcText([0xC0, 0x80])
    ensures var g := [0xED, 0xA0, 0x80]; Surrogate(g) && IsGrouped(g) && !IsRfcText(g)
    ensures var g := [0xF5, 0x80, 0x80, 0x80]; TooLarge(g) && IsGrouped(g) && !IsRfcText(g)
  {
    hide IsRfcText, IsGrouped;
    BeyondRfcIsAccepted([0xC0, 0x80]);
    BeyondRfcIsAccepted([0xED, 0xA0, 0x80]);
    BeyondRfcIsAccepted([0xF5, 0x80, 0x80, 0x80]);
  }
}
