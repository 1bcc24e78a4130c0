/** The messages of proto/rndz.proto, without unknown fields. */
module Messages {
  import opened Base

  datatype ReqCmd =
    | Ping
    | Isync(id: Id)
    | Fsync(id: Id, addr: Text)
    | Rsync(id: Id)
    | Bye

  datatype Request = Request(id: Id, cmd: Option<ReqCmd>)

  datatype RespCmd =
    | Pong
    | Redirect(id: Id, addr: Text)
    | FsyncResp(id: Id, addr: Text)

  datatype Response = Response(id: Id, cmd: Option<RespCmd>)
}
