/** The request-message ABI between clients and netstack.process (netstack_ipc.h). */
module Ipc {
  type u16 = x: int | 0 <= x < 0x1_0000
  type u32 = x: int | 0 <= x < 0x1_0000_0000
  type byte = x: int | 0 <= x < 0x100

  // Error codes.
  const OK := 0
  const EBADF := -9
  const EAGAIN := -11
  const EINVAL := -22
  const EMFILE := -24
  const ENOSYS := -38
  const EMSGSIZE := -40
  const EADDRINUSE := -48
  const ENOTCONN := -57
  const ECONNREFUSED := -61

  /** Size of the inline payload buffer of send and recv requests. */
  const MAX_PAYLOAD: nat := 1024

  /** The inline payload buffer; it always has its full size, whatever the length fields say. */
  type Payload = d: seq<byte> | |d| == MAX_PAYLOAD witness seq(MAX_PAYLOAD, _ => 0)

  /** The opcode together with the member of the union it selects. Lengths and fds are raw
      integers: nothing is assumed about what a client puts there. */
  datatype Body =
    | Ping(seqNo: u32, payload: u32)
    | Shutdown
    | Socket(domain: int, typ: int, proto: int, fd: int)
    | Close(sock: int)
    | Bind(sock: int, port: u16)
    | Listen(sock: int, backlog: int)
    | Connect(sock: int, port: u16)
    | Accept(sock: int, newSock: int, peerPort: u16)
    | Send(sock: int, len: int, sent: int, data: Payload)
    | Recv(sock: int, want: int, got: int, buf: Payload)
    | Unknown(op: u16)

  /** One request message, before or after the engine has answered it in place. */
  datatype Req = Req(err: int, body: Body)

  function Min(a: int, b: int): int {
    if a < b then a else b
  }
}
