/** The few Java platform notions the library's behaviour depends on. */
module Java {
  import opened Wrappers

  /** Java `int` and `long`. */
  type Int32 = x: int | -0x8000_0000 <= x < 0x8000_0000
  type Int64 = x: int | -0x8000_0000_0000_0000 <= x < 0x8000_0000_0000_0000

  /** A fully qualified class name is never empty. */
  type ClassName = s: string | |s| > 0 witness "java.lang.Exception"

  /** A thrown `Throwable`: its class, its (possibly null) message, and whether
      it is outside `java.lang.Exception` (a `java.lang.Error`, typically), so
      that `catch (Exception e)` does not catch it. */
  datatype JavaException = JavaException(className: ClassName, message: Option<string>, isError: bool)

  const NullPointer: ClassName := "java.lang.NullPointerException"

  /** `Throwable.toString()`: the class name, then ": " and the message when there is one. */
  function ToString(e: JavaException): (s: string)
    ensures |s| > 0
    ensures |e.className| <= |s| && s[..|e.className|] == e.className
    ensures e.message.None? <==> s == e.className
    ensures e.message.Some? ==> s == e.className + ": " + e.message.value
  {
    match e.message
    case None => e.className
    case Some(m) => e.className + ": " + m
  }

  /** What `Objects.requireNonNull(x, name)` throws when `x` is null. */
  function NullArgument(name: string): (e: JavaException) {
    JavaException(NullPointer, Some(name), false)
  }

  /** What dereferencing a null string throws (no message in this model). */
  const NullDereference := JavaException(NullPointer, None, false)
}
