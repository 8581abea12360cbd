/** `getFileStatsFn`: the size colour of an asset against the three colour
    limits, and the parts of one asset line. */
module FileStats {
  import opened Wrappers
  import opened Engine
  import Strings

  /** A colour limit in bytes. A limit parsed from text that is not a number
      is NaN, which every comparison treats as false. */
  datatype Threshold = Bytes(n: int) | NaN

  /** The `green`, `yellow` and `red` limits. */
  datatype Marks = Marks(green: Threshold, yellow: Threshold, red: Threshold)

  /** 200, 400 and 500 KiB. */
  const DefaultMarks := Marks(Bytes(200 * 1024), Bytes(400 * 1024), Bytes(500 * 1024))

  /** `size <= t` in JavaScript. */
  predicate AtMost(size: nat, t: Threshold)
  {
    t.Bytes? && size <= t.n
  }

  /** `size > t` in JavaScript. */
  predicate Above(size: nat, t: Threshold)
  {
    t.Bytes? && size > t.n
  }

  /** The display styles `valid`, `notice`, `none` and `error`. */
  datatype SizeClass = Valid | Notice | Unmarked | Error

  /** The colour of an asset size: the first of green and yellow that the size
      does not exceed, else `error` above red, else no colour. */
  function Classify(size: nat, marks: Marks): (c: SizeClass)
    ensures c == Valid <==> AtMost(size, marks.green)
    ensures c == Notice <==> !AtMost(size, marks.green) && AtMost(size, marks.yellow)
    ensures c == Error <==> !AtMost(size, marks.green) && !AtMost(size, marks.yellow) && Above(size, marks.red)
  {
    if AtMost(size, marks.green) then Valid
    else if AtMost(size, marks.yellow) then Notice
    else if Above(size, marks.red) then Error
    else Unmarked
  }

  /** With ascending limits the colours are four consecutive bands: up to
      green, up to yellow, up to red, above red. */
  lemma ClassifyAscending(size: nat, green: int, yellow: int, red: int)
    requires green <= yellow <= red
    ensures var c := Classify(size, Marks(Bytes(green), Bytes(yellow), Bytes(red)));
            && (c == Valid <==> size <= green)
            && (c == Notice <==> green < size <= yellow)
            && (c == Unmarked <==> yellow < size <= red)
            && (c == Error <==> red < size)
  {
  }

  /** The severity order of the colours. */
  function Rank(c: SizeClass): nat
  {
    match c
    case Valid => 0
    case Notice => 1
    case Unmarked => 2
    case Error => 3
  }

  /** Whatever numeric limits are given, ascending or not, a larger asset never
      gets a milder colour. */
  lemma ClassifyMonotone(small: nat, large: nat, green: int, yellow: int, red: int)
    requires small <= large
    ensures var marks := Marks(Bytes(green), Bytes(yellow), Bytes(red));
            Rank(Classify(small, marks)) <= Rank(Classify(large, marks))
  {
  }

  /** NaN limits colour nothing. */
  lemma ClassifyNaN(size: nat)
    ensures Classify(size, Marks(NaN, NaN, NaN)) == Unmarked
  {
  }

  /** One part of an asset line: the chunk names, the bracket block around the
      size or the arrow that replaces it, and the output file. */
  datatype Part =
    | Chunks(names: string)
    | OpenBracket
    | OutputLabel
    | SizeText(bytes: nat, sizeClass: SizeClass)
    | CloseBracket
    | Arrow
    | OutputFile(path: string)

  /** `if (asset.size)`: a size that is present and not zero. */
  predicate HasSize(asset: Asset)
  {
    asset.size.Some? && asset.size.value != 0
  }

  /** `getFileStats(asset)` with `options.stats` as `showStats`. */
  function GetFileStats(showStats: bool, marks: Marks, asset: Asset): (parts: seq<Part>)
    ensures |parts| == (if !showStats then 3 else if HasSize(asset) then 6 else 4)
    ensures parts[0] == Chunks(Strings.Join(asset.chunkNames, ", "))
    ensures parts[|parts| - 1] == OutputFile("./" + asset.name)
    ensures !showStats ==> parts[1] == Arrow
    ensures showStats ==> parts[1] == OpenBracket && parts[|parts| - 2] == CloseBracket
    ensures showStats && HasSize(asset) ==>
              parts[2] == OutputLabel && parts[3] == SizeText(asset.size.value, Classify(asset.size.value, marks))
    ensures (exists i :: 0 <= i < |parts| && parts[i].SizeText?) <==> showStats && HasSize(asset)
  {
    var head := [Chunks(Strings.Join(asset.chunkNames, ", "))];
    var middle :=
      if showStats then
        [OpenBracket]
        + (if HasSize(asset) then [OutputLabel, SizeText(asset.size.value, Classify(asset.size.value, marks))] else [])
        + [CloseBracket]
      else [Arrow];
    head + middle + [OutputFile("./" + asset.name)]
  }
}
