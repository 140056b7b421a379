/** Length and character limits of domain names, and the greatest label and
    name built from them (`common/constants.rs`, `utils/domain_name.rs`). */
module Constants {
  import opened Bytes
  import opened Ascii
  import opened Labels

  const MAX_DOMAIN_NAME_LENGTH: nat := 255
  const MAX_DOMAIN_LABEL_LENGTH: nat := 63

  /** `b'z'`, the greatest byte the grammar accepts. */
  const MAX_DOMAIN_ASCII_CHAR_VALUE: byte := LOWER_Z

  /** Every byte a name may contain (`[0-9A-Za-z._-]`) is at most `z`, so a
      string of `z` is an upper bound for names no longer than it. */
  lemma AcceptedBytesAtMostMaxChar(c: byte)
    requires IsAlphanumeric(c) || c == DOT || c == HYPHEN || c == UNDERSCORE
    ensures c <= MAX_DOMAIN_ASCII_CHAR_VALUE
    ensures c == MAX_DOMAIN_ASCII_CHAR_VALUE <==> c == LOWER_Z
  {
  }

  /** `MAX_DOMAIN_LABEL`: 63 copies of `z`. */
  const MAX_DOMAIN_LABEL: seq<byte> := Repeat(MAX_DOMAIN_ASCII_CHAR_VALUE, MAX_DOMAIN_LABEL_LENGTH)

  /** The compile-time loop that builds `MAX_DOMAIN_NAME`: fill with `z`, put
      a dot at the last index, then a dot every 64 bytes from index 62. */
  method BuildMaxDomainName() returns (name: seq<byte>)
    ensures |name| == MAX_DOMAIN_NAME_LENGTH
    ensures forall i :: 0 <= i < |name| ==>
      (name[i] == DOT <==> i == 62 || i == 126 || i == 190 || i == 254)
    ensures forall i :: 0 <= i < |name| ==> name[i] == DOT || name[i] == LOWER_Z
    ensures name == MaxDomainName()
  {
    name := Repeat(LOWER_Z, MAX_DOMAIN_NAME_LENGTH);
    var index := MAX_DOMAIN_LABEL_LENGTH - 1;
    name := name[MAX_DOMAIN_NAME_LENGTH - 1 := DOT];
    while index < MAX_DOMAIN_NAME_LENGTH
      invariant |name| == MAX_DOMAIN_NAME_LENGTH
      invariant index % 64 == 62 && index <= MAX_DOMAIN_NAME_LENGTH + 63
      invariant forall i :: 0 <= i < |name| ==>
        name[i] == (if i == 254 || (i % 64 == 62 && i < index) then DOT else LOWER_Z)
      decreases MAX_DOMAIN_NAME_LENGTH - index
    {
      name := name[index := DOT];
      index := index + MAX_DOMAIN_LABEL_LENGTH + 1;
    }
  }

  /** `MAX_DOMAIN_NAME` (and `max_domain_name()`, its UTF-8 reading, which
      never fails on these ASCII bytes) in closed form: 255 bytes of `z` with a
      dot at every index that is 62 modulo 64. */
  function MaxDomainName(): (r: seq<byte>)
    ensures |r| == MAX_DOMAIN_NAME_LENGTH && r[|r| - 1] == DOT
    ensures forall i :: 0 <= i < |r| ==> r[i] == DOT || r[i] == LOWER_Z
  {
    seq(255, i => if i % 64 == 62 then DOT else LOWER_Z)
  }

  /** `max_domain_label()`. */
  function MaxDomainLabelString(): (r: seq<byte>)
    ensures |r| == MAX_DOMAIN_LABEL_LENGTH
    ensures forall i :: 0 <= i < |r| ==> r[i] == LOWER_Z
  {
    MAX_DOMAIN_LABEL
  }

  /** The greatest domain name is four `z` labels of 62, 63, 63 and 63
      bytes, each followed by a dot. */
  lemma MaxDomainNameLabels()
    ensures MaxDomainName() == Terminated([Repeat(LOWER_Z, 62), MAX_DOMAIN_LABEL, MAX_DOMAIN_LABEL, MAX_DOMAIN_LABEL], DOT)
  {
    var m := MaxDomainName();
    var z62 := Repeat(LOWER_Z, 62);
    var z63 := MAX_DOMAIN_LABEL;
    var ls := [z62, z63, z63, z63];
    var last := z63 + [DOT];
    assert Terminated(ls[3..], DOT) == last + Terminated([], DOT);
    assert Terminated(ls[2..], DOT) == last + last;
    assert Terminated(ls[1..], DOT) == last + (last + last);
    assert Terminated(ls, DOT) == z62 + [DOT] + (last + (last + last));
    SegmentOfMaxDomainName(0, 62);
    SegmentOfMaxDomainName(63, 63);
    SegmentOfMaxDomainName(127, 63);
    SegmentOfMaxDomainName(191, 63);
    assert m == m[..63] + (m[63..127] + (m[127..191] + m[191..]));
  }

  /** Each label-sized slice of the greatest name is `z`s followed by a dot. */
  lemma SegmentOfMaxDomainName(start: nat, len: nat)
    requires (start == 0 && len == 62) || ((start == 63 || start == 127 || start == 191) && len == 63)
    ensures MaxDomainName()[start..start + len + 1] == Repeat(LOWER_Z, len) + [DOT]
  {
    var m := MaxDomainName();
    var seg := m[start..start + len + 1];
    forall i | 0 <= i < len ensures seg[i] == LOWER_Z {
      var j := start + i;
      assert seg[i] == m[j];
      if j < 64 {
        assert j % 64 == j;
      } else if j < 128 {
        assert j % 64 == j - 64;
      } else if j < 192 {
        assert j % 64 == j - 128;
      } else {
        assert j % 64 == j - 192;
      }
    }
    assert seg[len] == m[start + len];
  }
}
