/** Option and Result datatypes shared by the whole model. A Python call
    that raises (KeyError, IndexError, ValueError, ...) is modelled as an
    `Err` value carrying the reason. */
module Wrappers {

  datatype Option<+T> = None | Some(value: T)

  /** Why an operation of the generator aborts; each constructor names the
      Python exception the source raises at that point. */
  datatype Error =
    | MissingAttribute(name: string)   // KeyError / TypeError on a missing attribute
    | NotANumber(text: string)         // ValueError from float() or int()
    | IndexOutOfRange                  // IndexError on a child list or split result
    | ZeroCanvas                       // ZeroDivisionError on a canvas of area 0
    | BadLayers                        // AssertionError in _layerNodesFrom
    | UnsupportedShape(tag: string)    // a question element that is neither rect nor g
    | MissingKey(key: string)          // KeyError on a dictionary lookup
    | NoId                             // None.startswith: an element without id
    | NoWrapperPath                    // inverse_wrapper returned None (wrapper not a rect)
    | NotFound                         // None.findall: no element carries the class searched for
    | BrokenDispatch                   // genByKey's "Don't Change" branch, a TypeError

  datatype Result<+T> = Ok(value: T) | Err(error: Error)
}
