/**
 * Address text rules of lib/utils/helpers.ts: the format check
 * `isValidAddress` and the shortened display form `formatAddress`.
 */
module Addresses {
  import opened Types

  predicate IsHexDigit(c: char)
  {
    '0' <= c <= '9' || 'a' <= c <= 'f' || 'A' <= c <= 'F'
  }

  /** `[a-fA-F0-9]{n}$`: `s` is exactly `n` hex digits, matched left to right. */
  predicate HexRun(s: string, n: nat)
    decreases n
  {
    if n == 0 then s == [] else s != [] && IsHexDigit(s[0]) && HexRun(s[1..], n - 1)
  }

  /** `/^0x[a-fA-F0-9]{40}$/.test(address)` */
  predicate IsValidAddress(a: string)
  {
    |a| >= 2 && a[0] == '0' && a[1] == 'x' && HexRun(a[2..], 40)
  }

  /** A run of `n` hex digits is a string of length `n` whose every character is a hex digit. */
  lemma {:induction false} HexRunSpec(s: string, n: nat)
    ensures HexRun(s, n) <==> |s| == n && forall i :: 0 <= i < |s| ==> IsHexDigit(s[i])
    decreases n
  {
    if n > 0 && s != [] {
      HexRunSpec(s[1..], n - 1);
      assert forall i :: 1 <= i < |s| ==> s[1..][i - 1] == s[i];
    }
  }

  /**
   * A valid address is 42 characters: the lower-case prefix "0x", then
   * forty hex digits in either case.
   */
  lemma IsValidAddressSpec(a: string)
    ensures IsValidAddress(a) <==>
      |a| == 42 && a[..2] == "0x" && forall i :: 2 <= i < 42 ==> IsHexDigit(a[i])
  {
    if |a| >= 2 {
      HexRunSpec(a[2..], 40);
      assert forall i :: 2 <= i < |a| ==> a[2..][i - 2] == a[i];
    }
  }

  /** Lower-casing a valid address keeps it valid, so normalised addresses are accepted. */
  lemma LowerKeepsValid(a: string)
    requires IsValidAddress(a)
    ensures IsValidAddress(Lower(a))
  {
    IsValidAddressSpec(a);
    IsValidAddressSpec(Lower(a));
    assert Lower(a)[..2] == "0x";
  }

  /** The prefix is case-sensitive: "0X" followed by forty zeros is rejected, its lower-cased form is accepted. */
  lemma UpperPrefixRejected()
    ensures var a := "0X" + seq(40, i => '0');
      !IsValidAddress(a) && IsValidAddress(Lower(a))
  {
    var a := "0X" + seq(40, i => '0');
    IsValidAddressSpec(Lower(a));
    assert Lower(a)[..2] == "0x";
  }

  /** The default number of characters kept at each end. */
  const DefaultChars: int := 4

  /** Where `String.prototype.slice` resolves a relative index `k` in a string of length `len`. */
  function SliceIndex(k: int, len: nat): (r: nat)
    ensures r <= len
    ensures k >= 0 ==> r == if k <= len then k else len
    ensures k < 0 ==> r == if len + k >= 0 then len + k else 0
  {
    if k < 0 then (if len + k >= 0 then len + k else 0) else if k <= len then k else len
  }

  /** `s.slice(start, end)`: empty when the resolved start is not before the resolved end. */
  function Slice(s: string, start: int, end: int): string
  {
    var i := SliceIndex(start, |s|);
    var j := SliceIndex(end, |s|);
    if i < j then s[i..j] else ""
  }

  /** `formatAddress(address, chars)`: the head `chars + 2` characters, "...", and the last `chars`. */
  function FormatAddress(address: string, chars: int): string
  {
    if address == "" then ""
    else Slice(address, 0, chars + 2) + "..." + Slice(address, -chars, |address|)
  }

  /**
   * The display form is always a prefix of the address, the ellipsis and a
   * suffix of the address; the empty address displays as the empty string.
   */
  lemma FormatAddressShape(address: string, chars: int)
    ensures address == "" ==> FormatAddress(address, chars) == ""
    ensures address != "" ==>
      exists i, j :: 0 <= i <= |address| && 0 <= j <= |address|
        && FormatAddress(address, chars) == address[..i] + "..." + address[j..]
  {
    if address != "" {
      var len := |address|;
      var i := SliceIndex(chars + 2, len);
      var j := SliceIndex(-chars, len);
      var head := Slice(address, 0, chars + 2);
      var tail := Slice(address, -chars, len);
      if 0 < i {
        assert head == address[..i];
      } else {
        assert head == address[..0];
      }
      if j < len {
        assert tail == address[j..];
      } else {
        assert tail == address[len..];
      }
    }
  }

  /**
   * On a valid address and `chars` between 1 and 20, the display keeps the
   * "0x" and `chars` digits in front and the last `chars` digits behind.
   */
  lemma FormatValidAddress(address: string, chars: int)
    requires IsValidAddress(address) && 1 <= chars <= 20
    ensures |address| == 42
    ensures FormatAddress(address, chars) == address[..chars + 2] + "..." + address[42 - chars..]
    ensures |FormatAddress(address, chars)| == 2 * chars + 5
  {
    IsValidAddressSpec(address);
  }

  /** The default form of a valid address: 13 characters, "0x" and four digits, "...", four digits. */
  lemma FormatDefault(address: string)
    requires IsValidAddress(address)
    ensures |address| == 42
    ensures FormatAddress(address, DefaultChars) == address[..6] + "..." + address[38..]
    ensures |FormatAddress(address, DefaultChars)| == 13
  {
    FormatValidAddress(address, DefaultChars);
  }

  /**
   * With `chars` = 0 the tail slice is `slice(-0)`, which is the whole
   * string: the display is "0x", the ellipsis, and the full address again.
   */
  lemma FormatZeroChars(address: string)
    requires IsValidAddress(address)
    ensures FormatAddress(address, 0) == "0x..." + address
  {
    IsValidAddressSpec(address);
    assert address[..2] == "0x";
  }
}
