/** Option and Result types used for Java's `null` and for thrown exceptions. */
module Wrappers {

  /** `None` stands for a Java `null` reference. */
  datatype Option<+T> = None | Some(value: T)

  /** `Failure` carries the exception a Java call would have thrown. */
  datatype Result<+R, +E> = Success(value: R) | Failure(error: E)

  /** The outcome of a Java `void` call: it returned, or it threw. */
  datatype Outcome<+E> = Pass | Fail(error: E)
}

/** The Java exceptions the modelled code can throw. */
module Exceptions {

  datatype Exception =
    | EndOfStream                        // java.io.EOFException
    | ConnectionFailed                   // any other IOException from accept or the stream header
    | NegativeArraySize(size: int)       // java.lang.NegativeArraySizeException
    | IndexOutOfBounds(index: int)       // java.lang.IndexOutOfBoundsException
    | StringIndexOutOfBounds(index: int) // java.lang.StringIndexOutOfBoundsException
    | IllegalArgument                    // java.lang.IllegalArgumentException
    | IllegalState(message: string)      // java.lang.IllegalStateException
    | NullPointer                        // java.lang.NullPointerException
    | NotAJar(extension: string)         // java.io.IOException raised by checkJar
    | FileNotFound(path: string)         // java.io.FileNotFoundException
    | ClassNotFound(name: string)        // java.lang.ClassNotFoundException
  {
    /** True of the subclasses of java.io.IOException, the only ones a
        `catch (IOException e)` block intercepts. */
    predicate IsIOException() {
      EndOfStream? || ConnectionFailed? || NotAJar? || FileNotFound?
    }
  }
}
