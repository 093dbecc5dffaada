/** Checks on what a client sends: names, opcodes and packet sizes. */
module Validator {
  import opened Record

  const NAME_FIELD := 32
  const HEADER_SIZE := 12
  const PACKET_SIZE := 1036

  const OP_JOIN := 0x10
  const OP_ATTACK := 0x11
  const OP_LEAVE := 0x12
  const OP_HEARTBEAT := 0x13

  /** The C string held by a fixed field: up to the first NUL, or all of it. */
  function CString(field: seq<char>): string {
    if field == [] || field[0] == '\0' then [] else [field[0]] + CString(field[1..])
  }

  lemma {:induction false} CStringPrefix(field: seq<char>, n: nat)
    requires n <= |field| && (forall k :: 0 <= k < n ==> field[k] != '\0') && (n < |field| ==> field[n] == '\0')
    ensures CString(field) == field[..n]
  {
    if n > 0 {
      CStringPrefix(field[1..], n - 1);
      assert field[..n] == [field[0]] + field[1..][..n - 1];
    }
  }

  /** The field holds `n` letters, digits, underscores and hyphens, and then a NUL. */
  ghost predicate NameOfLength(field: seq<char>, n: nat) {
    && n < |field| && field[n] == '\0'
    && forall k :: 0 <= k < n ==>
         var c := field[k];
         'a' <= c <= 'z' || 'A' <= c <= 'Z' || '0' <= c <= '9' || c == '_' || c == '-'
  }

  /** The name check accepts a field exactly when it holds a NUL-ended valid name. */
  method ValidateUsername(field: seq<char>) returns (ok: bool)
    requires |field| == NAME_FIELD
    ensures ok <==> ValidName(CString(field))
    ensures ok <==> exists n :: 1 <= n <= 31 && NameOfLength(field, n)
  {
    var len := 0;
    while len < NAME_FIELD && field[len] != '\0'
      invariant 0 <= len <= NAME_FIELD
      invariant forall k :: 0 <= k < len ==> field[k] != '\0'
    {
      len := len + 1;
    }
    CStringPrefix(field, len);
    if len == 0 || len >= NAME_FIELD {
      return false;
    }
    for i := 0 to len
      invariant forall k :: 0 <= k < i ==> NameChar(field[k])
    {
      if !NameChar(field[i]) {
        assert field[..len][i] == field[i];
        assert forall n: nat :: NameOfLength(field, n) ==> i < n;
        return false;
      }
    }
    assert NameOfLength(field, len);
    return true;
  }

  predicate ValidateOpcode(opcode: nat) {
    opcode == OP_JOIN || opcode == OP_ATTACK || opcode == OP_LEAVE || opcode == OP_HEARTBEAT
  }

  /** Body size an opcode must have; `none` (0) leaves it free. */
  function ExpectedBody(opcode: nat): nat {
    if opcode == OP_JOIN then 32 else if opcode == OP_ATTACK then 4 else 0
  }

  /** The lengths the server takes for an opcode; those it does not know are only bounded. */
  predicate SizeOk(opcode: nat, length: nat) {
    && HEADER_SIZE <= length <= PACKET_SIZE
    && (opcode == OP_JOIN ==> length == 44)
    && (opcode == OP_ATTACK ==> length == 16)
  }

  method ValidatePacketSize(opcode: nat, length: nat) returns (ok: bool)
    ensures ok <==> SizeOk(opcode, length)
    ensures ok <==> 12 <= length <= 1036 && (opcode == 0x10 ==> length == 44) && (opcode == 0x11 ==> length == 16)
  {
    if length < HEADER_SIZE || length > PACKET_SIZE {
      return false;
    }
    var expected := ExpectedBody(opcode);
    if expected > 0 && length != HEADER_SIZE + expected {
      return false;
    }
    return true;
  }
}
