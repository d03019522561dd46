/** Logs of foreign calls and the scripts that answer them. */
module Scripts {
  /** One call and what it was answered. */
  datatype Entry<C, R> = Entry(call: C, reply: R)

  /** The log after one more call: a script answers the n-th call of a log, whatever it is. */
  function Ask<C, R>(script: nat -> R, log: seq<Entry<C, R>>, call: C): (log': seq<Entry<C, R>>)
    ensures |log'| == |log| + 1 && log <= log'
  {
    log + [Entry(call, script(|log|))]
  }
}
