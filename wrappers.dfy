/** Option and Result, and the exceptions the query layer can raise. */
module Wrappers {

  datatype Option<+T> = None | Some(value: T)

  /** The Python exceptions that escape from the query functions, one constructor per cause. */
  datatype Fault =
    | MissingMeasure                  // ValueError: no evaluation 'measure'
    | MissingDataset                  // ValueError: no evaluation 'dataset'
    | MissingRegidOrToolkit           // ValueError: neither 'regid' nor 'toolkit'
    | BadCfgidType                    // ValueError raised by cfgidstr
    | NotAnInteger(text: string)      // ValueError raised by int() on a string
    | NotConvertible                  // ValueError raised by int() on NaN
    | NoSuchKey(key: string)          // KeyError on a dictionary lookup
    | NoneKey                         // KeyError for the key None
    | NoneOperand                     // TypeError: None used where a string is needed
    | UndefinedName(name: string)     // NameError
    | NoSuchDirectory(dir: seq<string>) // FileNotFoundError raised by os.listdir
    | NoSuchFile(file: seq<string>)   // FileNotFoundError raised by pd.read_csv
    | DuplicateColumn(column: string) // ValueError raised by DataFrame.insert
    | MissingColumn(column: string)   // AttributeError/KeyError on a column access
    | NotAString                      // AttributeError: str method called on a non-string cell

  datatype Result<+T> = Ok(value: T) | Err(error: Fault) {
    predicate IsFailure() { Err? }

    function PropagateFailure<U>(): Result<U>
      requires Err?
    {
      Err(error)
    }

    function Extract(): T
      requires Ok?
    {
      value
    }
  }

  /** Equal prefixes give equal concatenations. */
  lemma AppendCongruence<T>(a: seq<T>, a': seq<T>, b: seq<T>)
    requires a == a'
    ensures a + b == a' + b
  {
  }

  /** Sequence concatenation is associative. */
  lemma AppendAssoc<T>(a: seq<T>, b: seq<T>, c: seq<T>)
    ensures (a + b) + c == a + (b + c)
  {
  }
}
