/** Label format checks (support/src/labels.rs) over raw bytes. */
module Labels {
  import opened Common

  const DOT: byte := 46
  const HYPHEN: byte := 45
  const MIN_LITE_USERNAME_DIGITS: nat := 2

  predicate IsDigit(b: byte) { 48 <= b <= 57 }

  predicate IsLower(b: byte) { 97 <= b <= 122 }

  predicate IsLabelByte(b: byte) { IsLower(b) || IsDigit(b) || b == HYPHEN }

  /** Non-empty, only `[a-z0-9-]`, no hyphen at either end. */
  predicate IsDnsLabel(bytes: seq<byte>) {
    && bytes != []
    && bytes[0] != HYPHEN && bytes[|bytes| - 1] != HYPHEN
    && forall i :: 0 <= i < |bytes| ==> IsLabelByte(bytes[i])
  }

  /** A label `<stem>.<digits>` cut at `k`: a DNS stem, one dot, enough digits. */
  predicate IsLiteSplit(bytes: seq<byte>, k: nat) {
    && k < |bytes|
    && bytes[k] == DOT
    && IsDnsLabel(bytes[..k])
    && |bytes| - (k + 1) >= MIN_LITE_USERNAME_DIGITS
    && forall i :: k < i < |bytes| ==> IsDigit(bytes[i])
  }

  /** On texts: a DNS label is made of `a`-`z`, `0`-`9` and inner hyphens. */
  lemma DnsLabelIs(text: string)
    requires forall i :: 0 <= i < |text| ==> text[i] as int < 128
    ensures IsDnsLabel(Ascii(text)) <==>
      && text != "" && text[0] != '-' && text[|text| - 1] != '-'
      && forall i :: 0 <= i < |text| ==> 'a' <= text[i] <= 'z' || '0' <= text[i] <= '9' || text[i] == '-'
  {
    var b := Ascii(text);
    assert forall i :: 0 <= i < |text| ==> b[i] == text[i] as int;
    if IsDnsLabel(b) {
      forall i | 0 <= i < |text| ensures 'a' <= text[i] <= 'z' || '0' <= text[i] <= '9' || text[i] == '-' {
        assert IsLabelByte(b[i]);
      }
    }
  }

  /** On texts: a lite-person label is a DNS label, a dot and at least two digits. */
  lemma LiteSplitIs(stem: string, digits: string)
    requires forall i :: 0 <= i < |stem| ==> stem[i] as int < 128
    requires forall i :: 0 <= i < |digits| ==> digits[i] as int < 128
    ensures IsLiteSplit(Ascii(stem) + Ascii(".") + Ascii(digits), |stem|) <==>
      IsDnsLabel(Ascii(stem)) && |digits| >= 2 && forall i :: 0 <= i < |digits| ==> '0' <= digits[i] <= '9'
  {
    var b := Ascii(stem) + Ascii(".") + Ascii(digits);
    assert b[..|stem|] == Ascii(stem) && b[|stem|] == DOT;
    hide IsDnsLabel;
    forall i | 0 <= i < |digits| ensures b[|stem| + 1 + i] == digits[i] as int {
    }
    if IsLiteSplit(b, |stem|) {
      forall i | 0 <= i < |digits| ensures '0' <= digits[i] <= '9' {
        assert IsDigit(b[|stem| + 1 + i]);
      }
    }
    if forall i :: 0 <= i < |digits| ==> '0' <= digits[i] <= '9' {
      forall i | |stem| < i < |b| ensures IsDigit(b[i]) {
        assert b[i] == digits[i - |stem| - 1] as int;
      }
    }
  }

  /** A lite-person label has no dot besides its separator. */
  lemma SplitDotUnique(bytes: seq<byte>, k: nat, j: nat)
    ensures IsLiteSplit(bytes, k) && j < |bytes| && bytes[j] == DOT ==> j == k
  {
    assert j < k < |bytes| ==> bytes[..k][j] == bytes[j];
  }

  /** The scan for the single dot decides exactly whether the label has a lite-person split. */
  method IsLitePersonLabel(bytes: seq<byte>) returns (ok: bool)
    ensures ok <==> exists k :: IsLiteSplit(bytes, k)
  {
    var length := |bytes|;
    if length < MIN_LITE_USERNAME_DIGITS + 2 {
      return false;
    }
    var dotIndex: nat := length;
    for i := 0 to length
      invariant dotIndex == length ==> forall j :: 0 <= j < i ==> bytes[j] != DOT
      invariant dotIndex != length ==>
        dotIndex < i && bytes[dotIndex] == DOT && forall j :: 0 <= j < i && j != dotIndex ==> bytes[j] != DOT
    {
      if bytes[i] == DOT {
        if dotIndex != length {
          forall k: nat ensures !IsLiteSplit(bytes, k) {
            SplitDotUnique(bytes, k, dotIndex);
            SplitDotUnique(bytes, k, i);
          }
          return false;
        }
        dotIndex := i;
      }
    }
    if dotIndex == length {
      return false;
    }
    forall k: nat ensures IsLiteSplit(bytes, k) ==> k == dotIndex {
      SplitDotUnique(bytes, k, dotIndex);
    }
    if !IsDnsLabel(bytes[..dotIndex]) || length - (dotIndex + 1) < MIN_LITE_USERNAME_DIGITS {
      return false;
    }
    ok := forall i :: dotIndex < i < length ==> IsDigit(bytes[i]);
    assert ok ==> IsLiteSplit(bytes, dotIndex);
  }
}
