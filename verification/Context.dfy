/** Contexts: the nodes of the DPE tree, as the slots of a fixed array. */
module Contexts {

  type u8 = x: nat | x < 0x100
  type u32 = x: nat | x < 0x1_0000_0000

  /** A context handle: its 16 bytes, read as one number. */
  type Handle = x: nat | x < 0x1_0000_0000_0000_0000_0000_0000_0000_0000

  const DEFAULT_HANDLE: Handle := 0
  const INVALID_HANDLE: Handle := 0xFFFF_FFFF_FFFF_FFFF_FFFF_FFFF_FFFF_FFFF

  /** Parent index of a root. */
  const ROOT_INDEX: u8 := 0xff

  /** A children bitmap, by the positions of its set bits (module Bitmap relates the two). */
  type Children = s: set<nat> | forall i :: i in s ==> i < 64 witness {}

  type Digest = seq<u8>

  datatype ContextState = Inactive | Active | Retired

  datatype ContextType = Normal | Simulation

  datatype TciNodeData = TciNodeData(
    tciType: u32, cumulative: Digest, current: Digest, locality: u32, svn: u32)

  datatype Context = Context(
    handle: Handle,
    tci: TciNodeData,
    children: Children,
    locality: u32,
    parent: u8,
    contextType: ContextType,
    state: ContextState,
    usesInternalInfo: bool,
    usesInternalDice: bool,
    allowX509: bool,
    allowExportCdi: bool,
    allowRecursive: bool)

  datatype ActivateArgs = ActivateArgs(
    contextType: ContextType,
    locality: u32,
    handle: Handle,
    tciType: u32,
    parent: u8,
    allowX509: bool,
    usesInternalInfo: bool,
    usesInternalDice: bool,
    allowExportCdi: bool,
    svn: u32,
    allowRecursive: bool)

  /** A measurement register of `tciSize` zero bytes. */
  function ZeroDigest(tciSize: nat): Digest {
    seq(tciSize, _ => 0)
  }

  function EmptyTci(tciSize: nat): TciNodeData {
    TciNodeData(0, ZeroDigest(tciSize), ZeroDigest(tciSize), 0, 0)
  }

  function NewContext(tciSize: nat): Context {
    Context(DEFAULT_HANDLE, EmptyTci(tciSize), {}, 0, ROOT_INDEX, Normal, Inactive,
            false, false, false, true, false)
  }

  function Activated(args: ActivateArgs, tciSize: nat): Context {
    Context(args.handle,
            EmptyTci(tciSize).(tciType := args.tciType, locality := args.locality, svn := args.svn),
            {}, args.locality, args.parent, args.contextType, Active,
            args.usesInternalInfo, args.usesInternalDice, args.allowX509,
            args.allowExportCdi, args.allowRecursive)
  }

  /** Everything is reset except the context type and `allowExportCdi`. */
  function Destroyed(c: Context, tciSize: nat): Context {
    c.(tci := EmptyTci(tciSize), state := Inactive, usesInternalInfo := false,
       usesInternalDice := false, allowX509 := false, parent := ROOT_INDEX, locality := 0,
       children := {}, handle := INVALID_HANDLE, allowRecursive := false)
  }

  datatype Error =
    | InvalidHandle
    | InvalidLocality
    | InvalidParentLocality
    | InvalidArgument
    | ArgumentNotSupported
    | InvalidCommand
    | MaxTcis
    | InvalidResponseBuf
    | HandleGenerationExhausted
    | DigestLengthMismatch
    | ContextIndexOob
    | ChildIndexOob
    | DescendantIndexOob
    | DestroyParentIndexOob
    | TciNodeCountExceeded
    | Crypto
    | Platform
    | Certificate
    | X509SkipsExhausted
    | X509InvalidState
    | X509InvalidWidth
    | CertSizeOverflow
    | SerialNumberSliceOob
    | Validation(why: ValidationError)

  datatype ValidationError =
    | InvalidMarker
    | VersionMismatch
    | SimulationNotSupported
    | InternalDiceNotSupported
    | InternalInfoNotSupported
    | AllowX509NotSupported
    | InactiveContextInvalidParent
    | InactiveContextWithChildren
    | InactiveContextWithMeasurement
    | InactiveContextWithFlagSet
    | DpeNotMarkedInitialized
    | ParentDoesNotExist
    | InactiveParent
    | ParentChildLinksCorrupted
    | ChildDoesNotExist
    | InactiveChild
    | DanglingRetiredContext
    | LocalityMismatch
    | MultipleDefaultContexts
    | MixedContextLocality
    | BadContextState
    | ChildWithMultipleParents
    | MixedContextTypeConnectedComponents
    | MultipleNormalConnectedComponents
    | CyclesInTree

  datatype Result<+T, +E> = Ok(value: T) | Err(error: E)
}
