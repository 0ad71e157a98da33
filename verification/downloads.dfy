/** The downloads page: the CSV export of the product list and the JSON
    export, each behind a chaos wait. */
module Downloads {
  import Text
  import Chaos
  import opened Products

  const CsvHeader: seq<string> := ["ID", "Nom", "Prix", "Catégorie", "Marque"]

  /** One CSV row; `showPrice` stands for `price.toString()`. */
  function CsvFields(p: Product, showPrice: real -> string): (fields: seq<string>)
    ensures |fields| == |CsvHeader|
  {
    [p.id, p.name, showPrice(p.price), p.category, p.brand]
  }

  /** The lines of the file: the header, then one line per product. */
  function CsvLines(products: seq<Product>, showPrice: real -> string): (lines: seq<string>)
    ensures |lines| == |products| + 1
    ensures lines[0] == Text.Join(CsvHeader, ',')
    ensures forall i :: 0 <= i < |products| ==> lines[i + 1] == Text.Join(CsvFields(products[i], showPrice), ',')
  {
    [Text.Join(CsvHeader, ',')]
      + seq(|products|, i requires 0 <= i < |products| => Text.Join(CsvFields(products[i], showPrice), ','))
  }

  /** `[headers.join(','), ...rows.map(row => row.join(','))].join('\n')`. */
  function CsvContent(products: seq<Product>, showPrice: real -> string): string {
    Text.Join(CsvLines(products, showPrice), '\n')
  }

  /** No field of the row contains a separator. */
  predicate PlainFields(fields: seq<string>) {
    forall k :: 0 <= k < |fields| ==> ',' !in fields[k] && '\n' !in fields[k]
  }

  /** A join of pieces free of `c`, by a separator other than `c`, is free of `c`. */
  lemma {:induction false} JoinAvoids(parts: seq<string>, sep: char, c: char)
    requires sep != c
    requires forall k :: 0 <= k < |parts| ==> c !in parts[k]
    ensures c !in Text.Join(parts, sep)
  {
    if |parts| > 1 {
      JoinAvoids(parts[1..], sep, c);
    }
  }

  /** When no field holds a comma or a line break, reading the file back line
      by line and cell by cell yields exactly the header and every product's
      fields. */
  lemma CsvRoundTrip(products: seq<Product>, showPrice: real -> string)
    requires forall i :: 0 <= i < |products| ==> PlainFields(CsvFields(products[i], showPrice))
    ensures var lines := Text.Split(CsvContent(products, showPrice), '\n');
            && |lines| == |products| + 1
            && Text.Split(lines[0], ',') == CsvHeader
            && forall i :: 0 <= i < |products| ==> Text.Split(lines[i + 1], ',') == CsvFields(products[i], showPrice)
  {
    var lines := CsvLines(products, showPrice);
    assert PlainFields(CsvHeader);
    JoinAvoids(CsvHeader, ',', '\n');
    forall k | 1 <= k < |lines| ensures '\n' !in lines[k] {
      JoinAvoids(CsvFields(products[k - 1], showPrice), ',', '\n');
    }
    Text.SplitJoin(lines, '\n');
    Text.SplitJoin(CsvHeader, ',');
    forall i | 0 <= i < |products| ensures Text.Split(lines[i + 1], ',') == CsvFields(products[i], showPrice) {
      Text.SplitJoin(CsvFields(products[i], showPrice), ',');
    }
  }

  /** A file handed to the browser. */
  datatype Export = Export(wait: Chaos.Wait, fileName: string, mimeType: string)

  /** `handleDownloadCSV`: the wait at index 1, then `products-<now>.csv`. */
  function DownloadCsv(unit: Chaos.UnitMap, cfg: Chaos.ChaosConfig, now: nat): (e: Export)
    ensures e.wait == Chaos.SimulateNetworkDelay(unit, cfg.seed, cfg, 1)
    ensures e.fileName == "products-" + Text.Decimal(now) + ".csv"
    ensures e.mimeType == "text/csv;charset=utf-8;"
  {
    Export(Chaos.SimulateNetworkDelay(unit, cfg.seed, cfg, 1), "products-" + Text.Decimal(now) + ".csv",
           "text/csv;charset=utf-8;")
  }

  /** `handleDownloadJSON`: the wait at index 2, then `products-<now>.json`. */
  function DownloadJson(unit: Chaos.UnitMap, cfg: Chaos.ChaosConfig, now: nat): (e: Export)
    ensures e.wait == Chaos.SimulateNetworkDelay(unit, cfg.seed, cfg, 2)
    ensures e.fileName == "products-" + Text.Decimal(now) + ".json"
    ensures e.mimeType == "application/json"
  {
    Export(Chaos.SimulateNetworkDelay(unit, cfg.seed, cfg, 2), "products-" + Text.Decimal(now) + ".json",
           "application/json")
  }

  /** The two exports wait on different draws of the same seed. */
  lemma ExportsUseDistinctDraws(seed: string)
    ensures Chaos.Key(seed, 1) != Chaos.Key(seed, 2)
  {
    if Chaos.Key(seed, 1) == Chaos.Key(seed, 2) {
      Chaos.KeyInjective(seed, 1, 2);
    }
  }

  /** Two exports started at the same instant produce two different files
      named after that instant; with chaos off neither waits, and under the
      chaos policy each waits at most 2.2 seconds. */
  lemma ExportsAtSameInstant(unit: Chaos.UnitMap, cfg: Chaos.ChaosConfig, now: nat)
    ensures var csv := DownloadCsv(unit, cfg, now);
            var json := DownloadJson(unit, cfg, now);
            && csv.fileName != json.fileName
            && csv.fileName[..|"products-" + Text.Decimal(now)|] == json.fileName[..|"products-" + Text.Decimal(now)|]
            && csv.mimeType != json.mimeType
            && (!cfg.enabled ==> csv.wait == Chaos.NoWait && json.wait == Chaos.NoWait)
            && (cfg.enabled && cfg.networkLatency == Chaos.ChaosLatency ==>
                  && csv.wait.WaitFor? && csv.wait.ms <= 2200.0
                  && json.wait.WaitFor? && json.wait.ms <= 2200.0)
  {
    var stem := "products-" + Text.Decimal(now);
    var csv := DownloadCsv(unit, cfg, now);
    var json := DownloadJson(unit, cfg, now);
    assert |csv.fileName| == |stem| + 4 && |json.fileName| == |stem| + 5;
    assert csv.fileName[..|stem|] == stem && json.fileName[..|stem|] == stem;
    if cfg.enabled && cfg.networkLatency == Chaos.ChaosLatency {
      Chaos.ChaosWaitBounds(unit, cfg.seed, cfg, 1);
      Chaos.ChaosWaitBounds(unit, cfg.seed, cfg, 2);
    }
  }
}
