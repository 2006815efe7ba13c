/** Opaque handles for the entities the importer session stores only by
    pointer identity, the null pointer as an Option, and the 32-bit unsigned
    arithmetic of the session's counters. */
module Handles {

  /** A `const clang::Decl *`: a declaration of the foreign (C/Objective-C) AST. */
  datatype ClangDecl = ClangDecl(addr: nat)

  /** A host `Decl *`. */
  datatype Decl = Decl(addr: nat)

  /** A host `ValueDecl *`. */
  datatype ValueDecl = ValueDecl(addr: nat)

  /** A host `ClassDecl *`. */
  datatype ClassDecl = ClassDecl(addr: nat)

  /** A host `ExtensionDecl *`. */
  datatype ExtensionDecl = ExtensionDecl(addr: nat)

  /** A host `ProtocolDecl *`. */
  datatype ProtocolDecl = ProtocolDecl(addr: nat)

  /** A host `ProtocolConformance *`. */
  datatype ProtocolConformance = ProtocolConformance(addr: nat)

  /** A host `NormalProtocolConformance *`. */
  datatype NormalProtocolConformance = NormalProtocolConformance(addr: nat)

  /** A `LazyResolver *`: the host type checker's resolver. */
  datatype LazyResolver = LazyResolver(addr: nat)

  /** A pointer that may be null. */
  datatype Option<T> = None | Some(value: T)

  /** The C++ `unsigned` of the session's counters. */
  newtype uint32 = x: int | 0 <= x < 0x1_0000_0000

  const UINT32_MAX: uint32 := 0xFFFF_FFFF

  /** `++` on an `unsigned`: one more, except that the largest value wraps to 0. */
  function Increment(x: uint32): (r: uint32)
    ensures x < UINT32_MAX ==> r as int == x as int + 1
    ensures x == UINT32_MAX ==> r == 0
    ensures r as int == (x as int + 1) % 0x1_0000_0000
  {
    if x == UINT32_MAX then 0 else x + 1
  }
}
