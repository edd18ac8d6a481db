/** The HTTP response a controller sends: status code, the JSON envelope's
    boolean flag, its `message`, and its `data`. */
module Http {
  import opened Common
  import opened Schema
  import opened Crypto

  /** The envelope's boolean: normally under the key `success`; one response
      of the login handler puts it under `status` instead. */
  datatype Flag = SuccessKey(success: bool) | StatusKey(status: bool)

  datatype Data =
    | NoData
    | PostSummary(postId: int, title: string, content: string, tagIds: seq<int>)
    | PostList(views: seq<PostView>)
    | OnePost(view: PostView)
    | Profile(username: string, email: string)
    | Session(token: Token, user: Claims)

  datatype Response = Response(status: int, flag: Flag, message: Message, data: Data)

  /** The `catch` block of the post handlers: `error.status` and `error.message`
      under `success: false`. */
  function Rejection(f: Failure): Response
  {
    Response(f.status, SuccessKey(false), f.message, NoData)
  }
}
