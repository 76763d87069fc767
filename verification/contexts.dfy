/**
 Per-connection thread contexts of src/context.c: `make_thread_context` pairs a
 (possibly absent) accepted socket with the server's shared logging handle, and
 `free_thread_context` releases the socket only when one is present.
 */
module Contexts {
  import opened Maybe

  /** An accepted client connection (`ipc_socket *`), identified opaquely. */
  type Socket = nat

  /** The server's logging handle; every thread context refers to it, none owns it. */
  type LogRef = nat

  /** The part of `server_context` the dispatch loop hands on to its thread contexts. */
  datatype ServerContext = ServerContext(log: LogRef)

  /** `thread_context`: a socket, NULL until one is assigned, and a reference to the server's log. */
  datatype ThreadContext = ThreadContext(socket: Option<Socket>, log: LogRef)

  /**
   `make_thread_context(socket, s_ctx)`; the allocation failure path is not modelled.
   Freeing the new context again releases exactly the socket it was made for, and nothing
   when it was made with NULL.
   */
  function MakeThreadContext(socket: Option<Socket>, server: ServerContext): (ctx: ThreadContext)
    ensures ctx.socket == socket
    ensures ctx.log == server.log
    ensures FreeThreadContext(ctx) == if socket.Some? then [socket.value] else []
  {
    ThreadContext(socket, server.log)
  }

  /**
   `free_thread_context(ctx)`, observed through the sockets it passes to `ipc_socket_free`:
   exactly the context's socket when it has one, nothing otherwise.
   */
  function FreeThreadContext(ctx: ThreadContext): (released: seq<Socket>)
    ensures |released| <= 1
    ensures |released| == 1 <==> ctx.socket.Some?
    ensures forall s :: s in released <==> ctx.socket == Some(s)
  {
    match ctx.socket
    case None => []
    case Some(s) => [s]
  }
}
