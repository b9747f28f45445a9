/** Optional values shared by the model. */
module Wrappers {

  /** `None` stands for C#'s `null` / `default(U)` where the source returns it. */
  datatype Option<+T> = None | Some(value: T)
}

/** Thread identities. */
module Threads {

  /** A thread's identity: the decimal ManagedThreadId string that
      CSharp/Util/ThreadHelper.cs hands out. Obtaining it is a platform call, so
      every operation that needs the calling thread takes it as a parameter. */
  type ThreadId = string
}
