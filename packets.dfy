/**
 * The two responses of the login handshake, built from the generic
 * typed-field message the server sends, and the client's reading of them.
 */
module Packets {
  import opened Wrappers

  /** A typed field of a network object; only the two kinds the handshake
      writes are modelled. */
  datatype Field = IntField(value: int) | ObjectField(obj: NetworkObject)

  /** A network object: fields by index. */
  datatype NetworkObject = NetworkObject(fields: map<nat, Field>)

  const EmptyObject := NetworkObject(map[])

  /** `NetworkObject.AddField`: sets the field at `index`. */
  function AddField(o: NetworkObject, index: nat, f: Field): (r: NetworkObject)
    ensures r.fields.Keys == o.fields.Keys + {index}
    ensures r.fields[index] == f
    ensures forall i :: i in o.fields && i != index ==> r.fields[i] == o.fields[i]
  {
    NetworkObject(o.fields[index := f])
  }

  /** The numeric values of the two `ObjectOpcode` members the handshake
      sends; the enumeration is declared outside this model. */
  datatype Opcodes = Opcodes(authenticate: int, authenticateError: int)

  type Byte = x: int | 0 <= x < 0x100

  /** The error codes the handshake uses. */
  const InvalidCredentials: Byte := 0
  const VersionMismatch: Byte := 1

  /** `ServerAuthenticationPacket`: the envelope of a handshake response. */
  datatype Packet = ServerAuthenticationPacket(payload: NetworkObject)

  /** The error response: field 0 is the `AuthenticateError` opcode, field 1 a
      nested object whose field 0 is the error code. */
  function AuthenticationError(ops: Opcodes, code: Byte): Packet {
    var errorCode := AddField(EmptyObject, 0, IntField(code));
    var authenticationError := AddField(AddField(EmptyObject, 0, IntField(ops.authenticateError)), 1, ObjectField(errorCode));
    ServerAuthenticationPacket(authenticationError)
  }

  /** The success response: field 0 is the `Authenticate` opcode, field 1 the
      account's privileges as an integer. */
  function AuthenticationSuccess(ops: Opcodes, privileges: int): Packet {
    var authentication := AddField(AddField(EmptyObject, 0, IntField(ops.authenticate)), 1, IntField(privileges));
    ServerAuthenticationPacket(authentication)
  }

  /** What a client reads from a handshake response. */
  datatype Response = Denied(code: int) | Granted(privileges: int) | Unrecognised

  function ReadField(o: NetworkObject, index: nat): Option<Field> {
    if index in o.fields then Some(o.fields[index]) else None
  }

  /** The client's decoding of a handshake response, written independently of
      the builders: it inspects field 0 for the opcode and field 1 for the
      payload. */
  function ReadResponse(ops: Opcodes, p: Packet): Response {
    var op := ReadField(p.payload, 0);
    var body := ReadField(p.payload, 1);
    if op == Some(IntField(ops.authenticateError)) && body.Some? && body.value.ObjectField? then
      match ReadField(body.value.obj, 0)
      case Some(IntField(code)) => Denied(code)
      case _ => Unrecognised
    else if op == Some(IntField(ops.authenticate)) && body.Some? && body.value.IntField? then
      Granted(body.value.value)
    else
      Unrecognised
  }

  /** Every error response carries exactly the two fields, the opcode first
      and the nested code second, and the client reads back the code. */
  lemma ErrorPacketShape(ops: Opcodes, code: Byte)
    ensures var o := AuthenticationError(ops, code).payload;
      && o.fields.Keys == {0, 1}
      && o.fields[0] == IntField(ops.authenticateError)
      && o.fields[1].ObjectField?
      && o.fields[1].obj.fields.Keys == {0}
      && o.fields[1].obj.fields[0] == IntField(code)
    ensures ReadResponse(ops, AuthenticationError(ops, code)) == Denied(code)
  {
  }

  /** A success response carries the opcode and the privileges, and the
      client reads back the privileges, even if the two opcodes coincided. */
  lemma SuccessPacketShape(ops: Opcodes, privileges: int)
    ensures var o := AuthenticationSuccess(ops, privileges).payload;
      && o.fields.Keys == {0, 1}
      && o.fields[0] == IntField(ops.authenticate)
      && o.fields[1] == IntField(privileges)
    ensures ReadResponse(ops, AuthenticationSuccess(ops, privileges)) == Granted(privileges)
  {
  }

  /** No success response is mistaken for an error response. */
  lemma ResponsesAreDistinct(ops: Opcodes, code: Byte, privileges: int)
    ensures AuthenticationError(ops, code) != AuthenticationSuccess(ops, privileges)
  {
    SuccessPacketShape(ops, privileges);
    ErrorPacketShape(ops, code);
  }
}
