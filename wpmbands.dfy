/** The colour of the WPM score tile. */
module WpmBands {

  datatype Option<T> = None | Some(value: T)

  /** An inline style with a text and a background colour. */
  datatype Style = Style(color: string, backgroundColor: string)

  /** The five speed bands, slowest first. */
  datatype Band = Slow | Fair | Average | Good | Fast

  /** The interval of WPM values each band stands for. */
  predicate InBand(wpm: int, b: Band)
  {
    match b
    case Slow => 0 < wpm < 20
    case Fair => 20 <= wpm < 40
    case Average => 40 <= wpm < 60
    case Good => 60 <= wpm < 80
    case Fast => 80 <= wpm
  }

  function Background(b: Band): string
  {
    match b
    case Slow => "#eb4841"
    case Fair => "#f48847"
    case Average => "#ffc84a"
    case Good => "#a6c34c"
    case Fast => "#4ec04e"
  }

  /** The style chosen for the tile, a chain of conditionals tested in order;
      `None` is the empty style object. */
  function TileStyle(wpm: int): Option<Style>
  {
    if wpm > 0 && wpm < 20 then Some(Style("white", "#eb4841"))
    else if wpm >= 20 && wpm < 40 then Some(Style("white", "#f48847"))
    else if wpm >= 40 && wpm < 60 then Some(Style("white", "#ffc84a"))
    else if wpm >= 60 && wpm < 80 then Some(Style("white", "#a6c34c"))
    else if wpm >= 80 then Some(Style("white", "#4ec04e"))
    else None
  }

  /** The band a positive WPM falls in. */
  function BandOf(wpm: int): (b: Band)
    requires wpm > 0
    ensures InBand(wpm, b)
  {
    if wpm < 20 then Slow else if wpm < 40 then Fair else if wpm < 60 then Average
    else if wpm < 80 then Good else Fast
  }

  /** Every positive WPM lies in exactly one band. */
  lemma BandsPartition(wpm: int, b: Band)
    requires wpm > 0
    ensures exists b' :: InBand(wpm, b')
    ensures InBand(wpm, b) <==> b == BandOf(wpm)
  {
    assert InBand(wpm, BandOf(wpm));
  }

  /** The tile is unstyled exactly when the WPM is not positive, and
      otherwise has white text on the background of the WPM's band. */
  lemma TileStyleByBand(wpm: int)
    ensures TileStyle(wpm).None? <==> wpm <= 0
    ensures wpm > 0 ==> TileStyle(wpm) == Some(Style("white", Background(BandOf(wpm))))
  {
  }

  function Rank(b: Band): nat
  {
    match b
    case Slow => 0
    case Fair => 1
    case Average => 2
    case Good => 3
    case Fast => 4
  }

  /** A higher WPM never gets a slower band. */
  lemma BandMonotone(v: int, w: int)
    requires 0 < v <= w
    ensures Rank(BandOf(v)) <= Rank(BandOf(w))
  {
  }
}
