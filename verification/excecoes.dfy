/** The Java exceptions the modelled code can end in, as values. */
module Excecoes {
  datatype Excecao =
    | IndexOutOfBounds   // ArrayIndexOutOfBoundsException
    | NumberFormat       // NumberFormatException from Integer.parseInt / Double.parseDouble
    | NegativeArraySize  // NegativeArraySizeException
    | NullPointer        // NullPointerException
}
