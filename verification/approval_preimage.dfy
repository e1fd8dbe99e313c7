/** The bytes hashed into an approval token: length-prefixed fields that can be read back. */
module ApprovalPreimage {
  import opened Prelude

  /** A byte string that fits in memory, so that its length fits in 64 bits. */
  type Field = s: seq<u8> | |s| < TWO_64 witness []

  const TAG: seq<u8> := AsBytes("blackpepper-worktrunk-approval-v1\0")

  function AsBytes(text: string): seq<u8>
    requires forall i :: 0 <= i < |text| ==> text[i] < 128 as char
  {
    seq(|text|, i requires 0 <= i < |text| => text[i] as u8)
  }

  function Pow256(k: nat): nat {
    if k == 0 then 1 else 256 * Pow256(k - 1)
  }

  /** The low `k` bytes of `n`, least significant first. */
  function LittleEndian(n: nat, k: nat): (bytes: seq<u8>)
    ensures |bytes| == k
  {
    if k == 0 then [] else [n % 256] + LittleEndian(n / 256, k - 1)
  }

  function FromLittleEndian(bytes: seq<u8>): nat {
    if bytes == [] then 0 else bytes[0] + 256 * FromLittleEndian(bytes[1..])
  }

  lemma {:induction false} LittleEndianRoundTrip(n: nat, k: nat)
    requires n < Pow256(k)
    ensures FromLittleEndian(LittleEndian(n, k)) == n
  {
    if k > 0 {
      LittleEndianRoundTrip(n / 256, k - 1);
      assert LittleEndian(n, k)[1..] == LittleEndian(n / 256, k - 1);
    }
  }

  function FieldBytes(value: Field): seq<u8> {
    LittleEndian(|value|, 8) + value
  }

  function Fields(values: seq<Field>): seq<u8> {
    if values == [] then [] else FieldBytes(values[0]) + Fields(values[1..])
  }

  function Preimage(identity: Field, repository: Field, arguments: seq<Field>, plan: Field): seq<u8> {
    TAG + Fields([identity, repository] + arguments + [plan])
  }

  /** The hasher, seen as the bytes it has been fed. */
  class Hasher {
    var stream: seq<u8>

    constructor ()
      ensures stream == []
    {
      stream := [];
    }

    method Update(bytes: seq<u8>)
      modifies this
      ensures stream == old(stream) + bytes
    {
      stream := stream + bytes;
    }
  }

  method HashField(hasher: Hasher, value: Field)
    modifies hasher
    ensures hasher.stream == old(hasher.stream) + FieldBytes(value)
  {
    hasher.Update(LittleEndian(|value|, 8));
    hasher.Update(value);
  }

  method ApprovalToken(identity: Field, repository: Field, arguments: seq<Field>, plan: Field) returns (hasher: Hasher)
    ensures fresh(hasher) && hasher.stream == Preimage(identity, repository, arguments, plan)
  {
    hide FieldBytes;
    hasher := new Hasher();
    hasher.Update(TAG);
    HashField(hasher, identity);
    HashField(hasher, repository);
    ghost var fed := [identity, repository];
    assert fed[1..] == [repository] && [repository][1..] == [];
    assert Fields([repository]) == FieldBytes(repository) + [];
    assert Fields(fed) == FieldBytes(identity) + FieldBytes(repository);
    assert hasher.stream == TAG + Fields(fed);
    for i := 0 to |arguments|
      invariant fed == [identity, repository] + arguments[..i]
      invariant hasher.stream == TAG + Fields(fed)
    {
      HashField(hasher, arguments[i]);
      FieldsSnoc(fed, arguments[i]);
      assert fed + [arguments[i]] == [identity, repository] + arguments[..i + 1];
      fed := fed + [arguments[i]];
    }
    HashField(hasher, plan);
    FieldsSnoc(fed, plan);
    assert fed + [plan] == [identity, repository] + arguments + [plan];
  }

  /** Reads the fields back, one length prefix after another. */
  function DecodeFields(bytes: seq<u8>): Option<seq<seq<u8>>>
    decreases |bytes|
  {
    if bytes == [] then Some([])
    else if |bytes| < 8 then None
    else
      var n := FromLittleEndian(bytes[..8]);
      if |bytes| < 8 + n then None
      else
        match DecodeFields(bytes[8 + n..])
        case None => None
        case Some(rest) => Some([bytes[8..8 + n]] + rest)
  }

  lemma {:induction false} FieldsSnoc(values: seq<Field>, value: Field)
    ensures Fields(values + [value]) == Fields(values) + FieldBytes(value)
  {
    hide FieldBytes;
    if values == [] {
      assert [value][1..] == [];
      assert values + [value] == [value];
    } else {
      FieldsSnoc(values[1..], value);
      assert (values + [value])[1..] == values[1..] + [value];
    }
  }

  lemma {:induction false} DecodeUndoesFields(values: seq<Field>)
    ensures DecodeFields(Fields(values)) == Some(values)
  {
    if values != [] {
      DecodeUndoesFields(values[1..]);
      var bytes, first := Fields(values), values[0];
      assert Pow256(8) == TWO_64 by { PowersOf256(); }
      LittleEndianRoundTrip(|first|, 8);
      assert bytes[..8] == LittleEndian(|first|, 8);
      assert bytes[8..8 + |first|] == first;
      assert bytes[8 + |first|..] == Fields(values[1..]);
      assert values == [first] + values[1..];
    }
  }

  lemma PowersOf256()
    ensures Pow256(8) == TWO_64
  {
    assert Pow256(2) == 0x1_0000;
    assert Pow256(4) == 0x1_0000_0000;
    assert Pow256(6) == 0x1_0000_0000_0000;
  }

  /** Equal hash inputs come from equal identities, paths, argument lists and plans. */
  lemma PreimageIsInjective(identity: Field, repository: Field, arguments: seq<Field>, plan: Field,
                            identity': Field, repository': Field, arguments': seq<Field>, plan': Field)
    requires Preimage(identity, repository, arguments, plan) == Preimage(identity', repository', arguments', plan')
    ensures identity == identity' && repository == repository' && arguments == arguments' && plan == plan'
  {
    var values, values' := [identity, repository] + arguments + [plan], [identity', repository'] + arguments' + [plan'];
    assert Fields(values) == Preimage(identity, repository, arguments, plan)[|TAG|..];
    assert Fields(values') == Preimage(identity', repository', arguments', plan')[|TAG|..];
    DecodeUndoesFields(values);
    DecodeUndoesFields(values');
    assert values == values';
    assert identity == values[0] == values'[0] && repository == values[1] == values'[1];
    assert arguments == values[2..|values| - 1] && arguments' == values'[2..|values'| - 1];
    assert plan == values[|values| - 1] && plan' == values'[|values'| - 1];
  }

  /** The hash input begins with the program's own tag, whatever is approved; an empty field is eight zero bytes. */
  lemma PreimageIsTagged(identity: Field, repository: Field, arguments: seq<Field>, plan: Field)
    ensures AsBytes("blackpepper-worktrunk-approval-v1\0") <= Preimage(identity, repository, arguments, plan)
    ensures Preimage([], [], [], []) == AsBytes("blackpepper-worktrunk-approval-v1\0") + seq(24, _ => 0)
  {
    var empty: Field := [];
    assert LittleEndian(0, 8) == seq(8, _ => 0);
    assert [empty, empty] + [] + [empty] == [empty, empty, empty];
    assert Fields([empty]) == seq(8, _ => 0);
    assert [empty, empty][1..] == [empty] && [empty, empty, empty][1..] == [empty, empty];
    assert Fields([empty, empty]) == seq(16, _ => 0);
    assert Fields([empty, empty, empty]) == seq(24, _ => 0);
  }
}
