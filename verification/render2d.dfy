/**
 * The 2D image operations of core/render_2d.go: the chequerboard, the
 * nearest-neighbour upscale by a power of two (its worker strips run one
 * after the other here), and the layout of the texture atlas.
 */
module Render2D {
  import opened Wrappers
  import opened Colors
  import opened Canvas
  import opened GoInt
  import opened GoStrings

  // ----- DrawChequerBoard -----

  const BoardSize: int := 8
  const SquareSize: int := 50
  const ChequerImageSize: int := 400

  /** The colour of the square in column x and row y: c1 when x + y is even. */
  function SquareColour(c1: RGBA, c2: RGBA, x: nat, y: nat): RGBA {
    if (x + y) % 2 == 0 then c1 else c2
  }

  /** A pixel belongs to the square in column px / 50 and row py / 50. */
  lemma SquareOfPixel(p: int, k: int)
    requires k * 50 <= p < k * 50 + 50
    ensures p / 50 == k
  {
  }

  /**
   * `DrawChequerBoard`, without writing the file: an 8x8 board of 50-pixel
   * squares, the square in column x and row y filled with c1 when x + y is
   * even and with c2 otherwise.
   */
  method DrawChequerBoard(c1: RGBA, c2: RGBA) returns (img: array2<RGBA>)
    ensures img.Length0 == ChequerImageSize && img.Length1 == ChequerImageSize
    ensures forall px, py :: InImage(img, px, py) ==> img[px, py] == SquareColour(c1, c2, px / 50, py / 50)
  {
    img := new RGBA[ChequerImageSize, ChequerImageSize]((i, j) => RGBA(0, 0, 0, 0));
    for y := 0 to BoardSize
      invariant forall px, py :: InImage(img, px, py) && py < y * 50 ==> img[px, py] == SquareColour(c1, c2, px / 50, py / 50)
    {
      for x := 0 to BoardSize
        invariant forall px, py :: InImage(img, px, py) && (py < y * 50 || (py < y * 50 + 50 && px < x * 50)) ==>
          img[px, py] == SquareColour(c1, c2, px / 50, py / 50)
      {
        var c := if (x + y) % 2 == 0 then c1 else c2;
        FillSquare(img, x, y, c);
        forall px, py | InImage(img, px, py) && x * 50 <= px < x * 50 + 50 && y * 50 <= py < y * 50 + 50
          ensures img[px, py] == SquareColour(c1, c2, px / 50, py / 50)
        {
          SquareOfPixel(px, x);
          SquareOfPixel(py, y);
        }
      }
    }
  }

  /** The two inner loops of `DrawChequerBoard`: the 50x50 square at column x, row y takes colour c. */
  method FillSquare(img: array2<RGBA>, x: int, y: int, c: RGBA)
    modifies img
    ensures forall px, py :: InImage(img, px, py) ==>
      img[px, py] == if x * 50 <= px < x * 50 + 50 && y * 50 <= py < y * 50 + 50 then c else old(img[px, py])
  {
    for dy := 0 to SquareSize
      invariant forall px, py :: InImage(img, px, py) ==>
        img[px, py] == if x * 50 <= px < x * 50 + 50 && y * 50 <= py < y * 50 + dy then c else old(img[px, py])
    {
      for dx := 0 to SquareSize
        invariant forall px, py :: InImage(img, px, py) ==>
          img[px, py] ==
            if x * 50 <= px < x * 50 + 50 && y * 50 <= py < y * 50 + dy then c
            else if py == y * 50 + dy && x * 50 <= px < x * 50 + dx then c
            else old(img[px, py])
      {
        Set(img, x * SquareSize + dx, y * SquareSize + dy, c);
      }
    }
  }

  /** Neighbouring squares differ whenever the two colours do. */
  lemma NeighboursDiffer(c1: RGBA, c2: RGBA, x: nat, y: nat)
    requires c1 != c2
    ensures SquareColour(c1, c2, x, y) != SquareColour(c1, c2, x + 1, y)
    ensures SquareColour(c1, c2, x, y) != SquareColour(c1, c2, x, y + 1)
    ensures SquareColour(c1, c2, x, y) == SquareColour(c1, c2, x + 1, y + 1)
  {
  }

  // ----- scaleImageNearestNeighbor -----

  /** Go's `a & b` on non-negative integers, bit by bit from the lowest. */
  function BitAnd(a: nat, b: nat): nat
    decreases a
  {
    if a == 0 || b == 0 then 0
    else 2 * BitAnd(a / 2, b / 2) + (if a % 2 == 1 && b % 2 == 1 then 1 else 0)
  }

  /** The reference definition: 1, 2, 4, 8, ... */
  predicate IsPowerOfTwo(n: int)
    decreases if n < 0 then 0 else n
  {
    n == 1 || (n > 1 && n % 2 == 0 && IsPowerOfTwo(n / 2))
  }

  /** The guard of `scaleImageNearestNeighbor`: `scaleFactor <= 0 || scaleFactor & (scaleFactor - 1) != 0`. */
  predicate RejectsScale(f: int) {
    f <= 0 || BitAnd(f, f - 1) != 0
  }

  /** A number and itself share every bit. */
  lemma {:induction false} BitAndSelf(m: nat)
    ensures BitAnd(m, m) == m
    decreases m
  {
    if m > 0 {
      BitAndSelf(m / 2);
    }
  }

  /** The guard rejects exactly the numbers that are not powers of two. */
  lemma {:induction false} RejectsScaleIff(f: int)
    ensures RejectsScale(f) <==> !IsPowerOfTwo(f)
    decreases if f < 0 then 0 else f
  {
    if f > 1 {
      var h := f / 2;
      if f % 2 == 0 {
        assert (f - 1) / 2 == h - 1 && (f - 1) % 2 == 1;
        assert BitAnd(f, f - 1) == 2 * BitAnd(h, h - 1);
        RejectsScaleIff(h);
      } else {
        assert (f - 1) / 2 == h && (f - 1) % 2 == 0;
        BitAndSelf(h);
        assert BitAnd(f, f - 1) == 2 * h;
      }
    }
  }

  /** The row strips of the workers: worker w of n takes rows [start, end) of h. */
  function StripStart(w: int, n: int, h: nat): int
    requires n >= 1
  {
    w * (h / n)
  }

  function StripEnd(w: int, n: int, h: nat): int
    requires n >= 1
  {
    if w == n - 1 then h else StripStart(w, n, h) + h / n
  }

  /** The rows the first w workers cover. */
  function RowsCovered(w: int, n: int, h: nat): int
    requires n >= 1
  {
    if w == n then h else StripStart(w, n, h)
  }

  /**
   * The strips partition the rows: the first starts at row 0, each ends
   * where the next starts, none runs backwards, and the last ends at h.
   */
  lemma StripsPartition(n: int, h: nat)
    requires n >= 1
    ensures StripStart(0, n, h) == 0
    ensures forall w :: 0 <= w < n - 1 ==> StripEnd(w, n, h) == StripStart(w + 1, n, h)
    ensures forall w :: 0 <= w < n ==> 0 <= StripStart(w, n, h) <= StripEnd(w, n, h) <= h
    ensures StripEnd(n - 1, n, h) == h
  {
    var r := h / n;
    assert r * n <= h;
    forall w | 0 <= w < n
      ensures 0 <= StripStart(w, n, h) <= StripEnd(w, n, h) <= h
      ensures w < n - 1 ==> StripEnd(w, n, h) == StripStart(w + 1, n, h)
    {
      StripBelow(w, n, r);
    }
  }

  /** Strip w ends at (w + 1) r, which is at most n r. */
  lemma StripBelow(w: int, n: int, r: nat)
    requires 0 <= w < n
    ensures 0 <= w * r && w * r + r == (w + 1) * r <= n * r
  {
    MulMonotone(0, w, r);
    MulMonotone(w + 1, n, r);
  }

  /** A coordinate of the scaled image maps to one inside the source. */
  lemma SourceCoordinate(p: int, f: int, size: nat)
    requires f > 0 && 0 <= p < size * f
    ensures 0 <= p / f < size
  {
    assert (p / f) * f <= p;
    MulCancel(p / f, size, f);
  }

  /** Pixel (x, y) of the scaled image holds the source pixel (x / f, y / f). */
  ghost predicate CopiedFromSource(original: array2<RGBA>, scaled: array2<RGBA>, f: int, x: int, y: int)
    requires f > 0 && InImage(scaled, x, y)
    reads original, scaled
  {
    InImage(original, x / f, y / f) && scaled[x, y] == original[x / f, y / f]
  }

  /**
   * `scaleImageNearestNeighbor`: for a power-of-two factor f, an image f
   * times as wide and as high whose pixel (x, y) is the source pixel
   * (x / f, y / f). Any other factor panics, and so does an empty source,
   * whose pixel buffer has no first byte to point at. `numWorkers` stands
   * for `runtime.NumCPU()`.
   */
  method ScaleImageNearestNeighbor(original: array2<RGBA>, scaleFactor: int, numWorkers: int)
    returns (r: Result<array2<RGBA>>)
    requires numWorkers >= 1
    ensures r.Failure? <==> RejectsScale(scaleFactor) || original.Length0 == 0 || original.Length1 == 0
    ensures r.Success? ==>
      && fresh(r.value)
      && scaleFactor > 0
      && r.value.Length0 == original.Length0 * scaleFactor
      && r.value.Length1 == original.Length1 * scaleFactor
      && forall x, y :: InImage(r.value, x, y) ==> CopiedFromSource(original, r.value, scaleFactor, x, y)
  {
    if scaleFactor <= 0 || BitAnd(scaleFactor, scaleFactor - 1) != 0 {
      return Failure("scaleFactor must be a power of 2");
    }
    var srcWidth, srcHeight := original.Length0, original.Length1;
    var newWidth, newHeight := srcWidth * scaleFactor, srcHeight * scaleFactor;
    if srcWidth == 0 || srcHeight == 0 {
      return Failure("index out of range");
    }
    var scaled := new RGBA[newWidth, newHeight]((i, j) => RGBA(0, 0, 0, 0));
    var rowsPerWorker := newHeight / numWorkers;
    StripsPartition(numWorkers, newHeight);
    for i := 0 to numWorkers
      invariant forall x, y :: InImage(scaled, x, y) && y < RowsCovered(i, numWorkers, newHeight) ==>
        CopiedFromSource(original, scaled, scaleFactor, x, y)
    {
      var startRow := i * rowsPerWorker;
      var endRow := startRow + rowsPerWorker;
      if i == numWorkers - 1 {
        endRow := newHeight;
      }
      assert startRow == StripStart(i, numWorkers, newHeight) == RowsCovered(i, numWorkers, newHeight);
      assert endRow == StripEnd(i, numWorkers, newHeight) == RowsCovered(i + 1, numWorkers, newHeight);
      ScaleRows(original, scaled, scaleFactor, startRow, endRow);
    }
    return Success(scaled);
  }

  /** One worker: rows [startRow, endRow) of the scaled image, each pixel copied from its source pixel. */
  method ScaleRows(original: array2<RGBA>, scaled: array2<RGBA>, scaleFactor: int, startRow: int, endRow: int)
    requires scaleFactor > 0 && 0 <= startRow <= endRow <= scaled.Length1
    requires scaled.Length0 == original.Length0 * scaleFactor && scaled.Length1 == original.Length1 * scaleFactor
    requires scaled != original
    modifies scaled
    ensures forall x, y :: InImage(scaled, x, y) && startRow <= y < endRow ==> CopiedFromSource(original, scaled, scaleFactor, x, y)
    ensures forall x, y :: InImage(scaled, x, y) && !(startRow <= y < endRow) ==> scaled[x, y] == old(scaled[x, y])
  {
    for y := startRow to endRow
      invariant forall x, yy :: InImage(scaled, x, yy) && startRow <= yy < y ==> CopiedFromSource(original, scaled, scaleFactor, x, yy)
      invariant forall x, yy :: InImage(scaled, x, yy) && !(startRow <= yy < y) ==> scaled[x, yy] == old(scaled[x, yy])
    {
      ScaleRow(original, scaled, scaleFactor, y);
    }
  }

  /** One row of a worker's strip. */
  method ScaleRow(original: array2<RGBA>, scaled: array2<RGBA>, scaleFactor: int, y: int)
    requires scaleFactor > 0 && 0 <= y < scaled.Length1
    requires scaled.Length0 == original.Length0 * scaleFactor && scaled.Length1 == original.Length1 * scaleFactor
    requires scaled != original
    modifies scaled
    ensures forall x :: 0 <= x < scaled.Length0 ==> CopiedFromSource(original, scaled, scaleFactor, x, y)
    ensures forall x, yy :: InImage(scaled, x, yy) && yy != y ==> scaled[x, yy] == old(scaled[x, yy])
  {
    var srcY := y / scaleFactor;
    SourceCoordinate(y, scaleFactor, original.Length1);
    for x := 0 to scaled.Length0
      invariant forall xx :: 0 <= xx < x ==>
        InImage(original, xx / scaleFactor, srcY) && scaled[xx, y] == original[xx / scaleFactor, srcY]
      invariant forall xx, yy :: InImage(scaled, xx, yy) && (yy != y || xx >= x) ==> scaled[xx, yy] == old(scaled[xx, yy])
    {
      var srcX := x / scaleFactor;
      SourceCoordinate(x, scaleFactor, original.Length0);
      scaled[x, y] := original[srcX, srcY];
    }
  }

  // ----- GenerateTilemap -----

  /** A directory entry: its name and whether it is a directory. */
  datatype DirEntry = DirEntry(name: string, isDir: bool)

  /**
   * `filepath.Ext`, scanning back from position i over characters that are
   * neither '/' nor '.': the suffix from the last '.' of the final path
   * element, or "" when that element has none.
   */
  function ExtFrom(path: string, i: int): (e: string)
    requires -1 <= i < |path|
    requires forall j :: i < j < |path| ==> path[j] != '/' && path[j] != '.'
    ensures e == "" || (e[0] == '.' && HasSuffix(path, e) && '/' !in e && '.' !in e[1..])
    decreases i + 1
  {
    if i < 0 || path[i] == '/' then ""
    else if path[i] == '.' then
      var e := path[i..];
      assert |path| - |e| == i;
      assert forall c :: c in e[1..] ==> exists j :: i < j < |path| && path[j] == c;
      e
    else ExtFrom(path, i - 1)
  }

  /** `filepath.Ext` with '/' as the only separator. */
  function Ext(path: string): (e: string)
    ensures e == "" || (e[0] == '.' && HasSuffix(path, e) && '/' !in e && '.' !in e[1..])
  {
    ExtFrom(path, |path| - 1)
  }

  /** The entries `GenerateTilemap` keeps: files, not directories, whose extension is ".png". */
  predicate IsPngFile(e: DirEntry) {
    !e.isDir && Ext(e.name) == ".png"
  }

  /** The kept entries, in directory order. */
  function PngFiles(files: seq<DirEntry>): seq<DirEntry> {
    if files == [] then []
    else PngFiles(files[..|files| - 1]) + (if IsPngFile(files[|files| - 1]) then [files[|files| - 1]] else [])
  }

  /** The filter keeps exactly the PNG files. */
  lemma {:induction false} PngFilesMembers(files: seq<DirEntry>)
    ensures forall e :: e in PngFiles(files) <==> e in files && IsPngFile(e)
  {
    if files != [] {
      var init := files[..|files| - 1];
      PngFilesMembers(init);
      assert files == init + [files[|files| - 1]];
    }
  }

  /** The atlas key of a file: its name without the extension. */
  function KeyOf(name: string): string {
    TrimSuffix(name, Ext(name))
  }

  /** The key of a PNG file is its name with ".png" removed. */
  lemma KeyOfPng(e: DirEntry)
    requires IsPngFile(e)
    ensures KeyOf(e.name) + ".png" == e.name
  {
  }

  /** Two PNG files with different names have different keys. */
  lemma KeysDiffer(a: DirEntry, b: DirEntry)
    requires IsPngFile(a) && IsPngFile(b) && a.name != b.name
    ensures KeyOf(a.name) != KeyOf(b.name)
  {
    KeyOfPng(a);
    KeyOfPng(b);
  }

  /** The first entry whose image fails to load, or |files| when all load. */
  function FirstLoadFailure<Img>(files: seq<DirEntry>, load: string -> Result<Img>): (k: nat)
    ensures k <= |files|
    ensures forall j :: 0 <= j < k ==> load(files[j].name).Success?
    ensures k < |files| ==> load(files[k].name).Failure?
  {
    if files == [] then 0
    else if load(files[0].name).Failure? then 0
    else 1 + FirstLoadFailure(files[1..], load)
  }

  /** `int(math.Ceil(math.Sqrt(float64(n))))`, searched upward from k. */
  function CeilSqrtFrom(n: nat, k: nat): (r: nat)
    requires k == 0 || (k - 1) * (k - 1) < n
    ensures r * r >= n && (r == 0 || (r - 1) * (r - 1) < n)
    decreases n - k
  {
    if k * k >= n then k
    else
      assert k <= n by {
        if k > 0 {
          MulMonotone(1, k, k);
        }
      }
      CeilSqrtFrom(n, k + 1)
  }

  /** The number of tiles per side: the least k with k * k >= n. */
  function CeilSqrt(n: nat): (k: nat)
    ensures k * k >= n && (k == 0 || (k - 1) * (k - 1) < n)
  {
    CeilSqrtFrom(n, 0)
  }

  /** `doPad` is false, so tiles carry no border. */
  const PadWidth: int := 0

  /** The top-left corner of tile i in an atlas of k tiles per side. */
  function TileX(i: nat, k: nat, tileSize: int): int
    requires k > 0
  {
    (i % k) * (tileSize + 2 * PadWidth) + PadWidth
  }

  function TileY(i: nat, k: nat, tileSize: int): int
    requires k > 0
  {
    (i / k) * (tileSize + 2 * PadWidth) + PadWidth
  }

  /** A tile drawn into the atlas: the image and the corner it is drawn at. */
  datatype Tile<Img> = Tile(image: Img, x: int, y: int)

  /** The atlas: its side in pixels, its tiles, and the corner of each key's tile. */
  datatype Tilemap<Img> = Tilemap(size: int, tiles: seq<Tile<Img>>, metas: map<string, (int, int)>)

  /** The key map after the first n tiles: a later tile with the same key replaces an earlier one. */
  function MetasOf(files: seq<DirEntry>, n: nat, k: nat, tileSize: int): map<string, (int, int)>
    requires n <= |files| && k > 0
  {
    if n == 0 then map[]
    else MetasOf(files, n - 1, k, tileSize)[KeyOf(files[n - 1].name) := (TileX(n - 1, k, tileSize), TileY(n - 1, k, tileSize))]
  }

  /** File i among the first n has its key in the map. */
  lemma {:induction false} MetasOfHasKey(files: seq<DirEntry>, n: nat, k: nat, tileSize: int, i: nat)
    requires n <= |files| && k > 0 && i < n
    ensures KeyOf(files[i].name) in MetasOf(files, n, k, tileSize)
  {
    if i < n - 1 {
      MetasOfHasKey(files, n - 1, k, tileSize, i);
    }
  }

  /** Every file among the first n has its key in the map. */
  lemma MetasOfHasKeys(files: seq<DirEntry>, n: nat, k: nat, tileSize: int)
    requires n <= |files| && k > 0
    ensures forall i :: 0 <= i < n ==> KeyOf(files[i].name) in MetasOf(files, n, k, tileSize)
  {
    forall i | 0 <= i < n {
      MetasOfHasKey(files, n, k, tileSize, i);
    }
  }

  /** Every key of the map is the key of one of the first n files and maps to that file's tile corner. */
  lemma {:induction false} MetasOfOnlyKeys(files: seq<DirEntry>, n: nat, k: nat, tileSize: int, key: string)
    requires n <= |files| && k > 0
    requires key in MetasOf(files, n, k, tileSize)
    ensures exists i :: (0 <= i < n && KeyOf(files[i].name) == key &&
      MetasOf(files, n, k, tileSize)[key] == (TileX(i, k, tileSize), TileY(i, k, tileSize)))
  {
    if key == KeyOf(files[n - 1].name) {
      assert MetasOf(files, n, k, tileSize)[key] == (TileX(n - 1, k, tileSize), TileY(n - 1, k, tileSize));
    } else {
      MetasOfOnlyKeys(files, n - 1, k, tileSize, key);
      var i :| 0 <= i < n - 1 && KeyOf(files[i].name) == key &&
        MetasOf(files, n - 1, k, tileSize)[key] == (TileX(i, k, tileSize), TileY(i, k, tileSize));
      assert MetasOf(files, n, k, tileSize)[key] == MetasOf(files, n - 1, k, tileSize)[key];
    }
  }

  /**
   * When the names are distinct PNG names, no key is overwritten: each
   * file's key maps to its own tile's corner.
   */
  lemma {:induction false} MetasOfOwnTile(files: seq<DirEntry>, n: nat, k: nat, tileSize: int, i: nat)
    requires n <= |files| && k > 0 && i < n
    requires forall j :: 0 <= j < n ==> IsPngFile(files[j])
    requires forall j1, j2 :: 0 <= j1 < j2 < n ==> files[j1].name != files[j2].name
    ensures KeyOf(files[i].name) in MetasOf(files, n, k, tileSize)
    ensures MetasOf(files, n, k, tileSize)[KeyOf(files[i].name)] == (TileX(i, k, tileSize), TileY(i, k, tileSize))
  {
    MetasOfHasKey(files, n, k, tileSize, i);
    var key, last := KeyOf(files[i].name), KeyOf(files[n - 1].name);
    var before := MetasOf(files, n - 1, k, tileSize);
    assert MetasOf(files, n, k, tileSize) == before[last := (TileX(n - 1, k, tileSize), TileY(n - 1, k, tileSize))];
    if i < n - 1 {
      KeysDiffer(files[i], files[n - 1]);
      MetasOfOwnTile(files, n - 1, k, tileSize, i);
      assert key != last && before[key] == (TileX(i, k, tileSize), TileY(i, k, tileSize));
    }
  }

  /** The filter loop of `GenerateTilemap`. */
  method SelectPngFiles(files: seq<DirEntry>) returns (imageFiles: seq<DirEntry>)
    ensures imageFiles == PngFiles(files)
  {
    imageFiles := [];
    for i := 0 to |files|
      invariant imageFiles == PngFiles(files[..i])
    {
      assert files[..i + 1][..i] == files[..i];
      if !files[i].isDir && Ext(files[i].name) == ".png" {
        imageFiles := imageFiles + [files[i]];
      }
    }
    assert files[..|files|] == files;
  }

  /** The load loop of `GenerateTilemap`: the first failure is returned, else every image in order. */
  method LoadImages<Img>(imageFiles: seq<DirEntry>, load: string -> Result<Img>) returns (r: Result<seq<Img>>)
    ensures var first := FirstLoadFailure(imageFiles, load);
      && (first < |imageFiles| ==> r == Failure(load(imageFiles[first].name).error))
      && (first == |imageFiles| ==>
        && r.Success? && |r.value| == |imageFiles|
        && forall j :: 0 <= j < |imageFiles| ==> r.value[j] == load(imageFiles[j].name).value)
  {
    var images := [];
    for i := 0 to |imageFiles|
      invariant FirstLoadFailure(imageFiles, load) >= i
      invariant |images| == i && forall j :: 0 <= j < i ==> images[j] == load(imageFiles[j].name).value
    {
      var img := load(imageFiles[i].name);
      if img.Failure? {
        return Failure(img.error);
      }
      images := images + [img.value];
    }
    return Success(images);
  }

  /** The destination corner of tile i, as the placement loop computes it. */
  method TileCorner(i: nat, tilesPerDim: nat, tileSize: int, padWidth: int) returns (x: int, y: int)
    requires tilesPerDim > 0 && padWidth == PadWidth
    ensures x == TileX(i, tilesPerDim, tileSize) && y == TileY(i, tilesPerDim, tileSize)
  {
    x := (i % tilesPerDim) * (tileSize + 2 * padWidth) + padWidth;
    y := (i / tilesPerDim) * (tileSize + 2 * padWidth) + padWidth;
  }

  /** The placement loop of `GenerateTilemap`: tile i at its grid corner, its key mapped to that corner. */
  method PlaceTiles<Img>(imageFiles: seq<DirEntry>, images: seq<Img>, tilesPerDim: nat, tileSize: int)
    returns (tiles: seq<Tile<Img>>, textureMetas: map<string, (int, int)>)
    requires |images| == |imageFiles| && tilesPerDim > 0
    ensures |tiles| == |images|
    ensures forall j :: 0 <= j < |images| ==> tiles[j] == Tile(images[j], TileX(j, tilesPerDim, tileSize), TileY(j, tilesPerDim, tileSize))
    ensures textureMetas == MetasOf(imageFiles, |images|, tilesPerDim, tileSize)
  {
    var padWidth := PadWidth;
    tiles := [];
    textureMetas := map[];
    for i := 0 to |images|
      invariant |tiles| == i
      invariant forall j :: 0 <= j < i ==> tiles[j] == Tile(images[j], TileX(j, tilesPerDim, tileSize), TileY(j, tilesPerDim, tileSize))
      invariant textureMetas == MetasOf(imageFiles, i, tilesPerDim, tileSize)
    {
      var x, y := TileCorner(i, tilesPerDim, tileSize, padWidth);
      tiles := tiles + [Tile(images[i], x, y)];
      var filename := imageFiles[i].name;
      var nameWithoutExt := TrimSuffix(filename, Ext(filename));
      textureMetas := textureMetas[nameWithoutExt := (x, y)];
      assert textureMetas == MetasOf(imageFiles, i + 1, tilesPerDim, tileSize);
    }
  }

  /**
   * `GenerateTilemap`, with the asset listing and the image loader as
   * parameters: the PNG files of the listing, in order, each loaded and
   * placed on a k x k grid with k = ceil(sqrt(n)), and each file's key
   * mapped to its tile's corner. A failed listing or load is passed on, and
   * no PNG file at all is an error.
   */
  method GenerateTilemap<Img>(dir: string, assets: Result<seq<DirEntry>>, load: string -> Result<Img>, tileSize: int)
    returns (r: Result<Tilemap<Img>>)
    ensures assets.Failure? ==> r == Failure(assets.error)
    ensures assets.Success? && FirstLoadFailure(PngFiles(assets.value), load) < |PngFiles(assets.value)| ==>
      r == Failure(load(PngFiles(assets.value)[FirstLoadFailure(PngFiles(assets.value), load)].name).error)
    ensures assets.Success? && |PngFiles(assets.value)| == 0 ==>
      r == Failure("no PNG files found in directory: " + dir)
    ensures assets.Success? && 0 < |PngFiles(assets.value)| == FirstLoadFailure(PngFiles(assets.value), load) ==>
      var pngs := PngFiles(assets.value);
      var k := CeilSqrt(|pngs|);
      && r.Success?
      && r.value.size == k * (tileSize + 2 * PadWidth)
      && |r.value.tiles| == |pngs|
      && (forall i :: 0 <= i < |pngs| ==>
        r.value.tiles[i] == Tile(load(pngs[i].name).value, TileX(i, k, tileSize), TileY(i, k, tileSize)))
      && r.value.metas == MetasOf(pngs, |pngs|, k, tileSize)
  {
    if assets.Failure? {
      return Failure(assets.error);
    }
    var imageFiles := SelectPngFiles(assets.value);
    var loaded := LoadImages(imageFiles, load);
    if loaded.Failure? {
      return Failure(loaded.error);
    }
    var images := loaded.value;
    if |images| == 0 {
      return Failure("no PNG files found in directory: " + dir);
    }
    var tilesPerDim := CeilSqrt(|images|);
    var tilemapSize := tilesPerDim * (tileSize + 2 * PadWidth);
    var tiles, textureMetas := PlaceTiles(imageFiles, images, tilesPerDim, tileSize);
    return Success(Tilemap(tilemapSize, tiles, textureMetas));
  }

  /** Tile i of n lies in row i / k < k, so every tile fits in the atlas. */
  lemma TilesFit(n: nat, tileSize: nat, i: nat)
    requires i < n
    ensures var k := CeilSqrt(n);
      && 0 <= TileX(i, k, tileSize) && TileX(i, k, tileSize) + tileSize <= k * (tileSize + 2 * PadWidth)
      && 0 <= TileY(i, k, tileSize) && TileY(i, k, tileSize) + tileSize <= k * (tileSize + 2 * PadWidth)
  {
    var k := CeilSqrt(n);
    var w := tileSize + 2 * PadWidth;
    assert k > 0;
    assert (i / k) * k <= i < k * k;
    MulCancel(i / k, k, k);
    MulMonotone(i % k + 1, k, w);
    MulMonotone(i / k + 1, k, w);
    MulMonotone(0, i % k, w);
    MulMonotone(0, i / k, w);
  }

  /** Two tiles in different columns or rows are at least a tile's width apart. */
  lemma CellsApart(a: nat, b: nat, w: nat)
    requires a < b
    ensures a * w + w <= b * w
  {
    MulMonotone(a + 1, b, w);
  }

  /** Distinct tiles never overlap: their squares are apart in x or in y. */
  lemma TilesDisjoint(k: nat, tileSize: nat, i: nat, j: nat)
    requires k > 0 && i != j
    ensures var xi, yi, xj, yj := TileX(i, k, tileSize), TileY(i, k, tileSize), TileX(j, k, tileSize), TileY(j, k, tileSize);
      xi + tileSize <= xj || xj + tileSize <= xi || yi + tileSize <= yj || yj + tileSize <= yi
  {
    var w := tileSize + 2 * PadWidth;
    assert i == (i / k) * k + i % k && j == (j / k) * k + j % k;
    if i % k < j % k {
      CellsApart(i % k, j % k, w);
    } else if j % k < i % k {
      CellsApart(j % k, i % k, w);
    } else if i / k < j / k {
      CellsApart(i / k, j / k, w);
    } else {
      CellsApart(j / k, i / k, w);
    }
  }
}
