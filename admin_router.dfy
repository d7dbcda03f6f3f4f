/** The administrator endpoints that validate their input before touching
    the database: creating a usage package and importing cities from a
    CSV file. File existence, opening, reading and the database writes are
    parameters. */
module AdminRouter {
  import opened Wrappers
  import opened PyText

  datatype HttpError = HttpError(status: int, detail: string)

  // ---------------------------------------------------------------------
  // add_package

  datatype Package = Package(packageId: string, packageName: string, price: real, sumNum: int)

  datatype PackageCreated = PackageCreated(package: Package, message: string)

  /** How the database insert fails: with a `ValueError` or otherwise. */
  datatype CreateError = CreateError(valueError: bool, message: string)

  /** `add_package`: the price must be positive, then the count; the
      insert yields the new id. A `ValueError` from the insert is a 400
      carrying its own message, any other failure a 500. */
  function AddPackage(packageName: string, price: real, sumNum: int,
                      create: (string, real, int) -> Result<string, CreateError>)
    : (r: Result<PackageCreated, HttpError>)
    ensures price <= 0.0 ==> r == Err(HttpError(400, "价格必须大于0"))
    ensures price > 0.0 && sumNum <= 0 ==> r == Err(HttpError(400, "次数必须大于0"))
    ensures r.Ok? ==> (price > 0.0 && sumNum > 0 && create(packageName, price, sumNum).Ok?
      && r.value == PackageCreated(Package(create(packageName, price, sumNum).value, packageName, price, sumNum),
                                   "套餐创建成功"))
    ensures price > 0.0 && sumNum > 0 ==> (r.Err? <==> create(packageName, price, sumNum).Err?)
    ensures r.Err? && r.error.status == 500 ==> "创建套餐失败: " <= r.error.detail
    ensures r.Err? ==> r.error.status in {400, 500}
  {
    if price <= 0.0 then Err(HttpError(400, "价格必须大于0"))
    else if sumNum <= 0 then Err(HttpError(400, "次数必须大于0"))
    else match create(packageName, price, sumNum)
      case Ok(id) => Ok(PackageCreated(Package(id, packageName, price, sumNum), "套餐创建成功"))
      case Err(e) =>
        if e.valueError then Err(HttpError(400, e.message))
        else Err(HttpError(500, "创建套餐失败: " + e.message))
  }

  // ---------------------------------------------------------------------
  // validate_city_file

  /** Why opening the file failed. Opening and building the reader read no
      bytes, so the decode and CSV failures are handlers that no input
      reaches: a file that is not UTF-8 fails only while its rows are read,
      and `CityInput` reports that as its 500 reading error. Only
      `OtherFailure` (a missing permission, say) can arise here. */
  datatype OpenFailure = DecodeFailure | CsvFailure(message: string) | OtherFailure(message: string)

  function OpenError(f: OpenFailure): HttpError {
    match f
    case DecodeFailure => HttpError(400, "CSV文件编码必须是UTF-8")
    case CsvFailure(m) => HttpError(400, "CSV文件格式错误: " + m)
    case OtherFailure(m) => HttpError(500, "读取CSV文件失败: " + m)
  }

  /** `validate_city_file`: the joined path must exist, then carry the
      extension ".csv" in any letter case, then open. */
  function ValidateCityFile(url: string, resourcePath: string, fileExists: string -> bool,
                            openFile: string -> Option<OpenFailure>)
    : (r: Result<string, HttpError>)
    ensures !fileExists(PathJoin(resourcePath, url)) ==> r == Err(HttpError(404, "CSV文件不存在"))
    ensures fileExists(PathJoin(resourcePath, url)) && Lower(Ext(url)) != ".csv" ==>
      r == Err(HttpError(400, "文件格式必须是CSV"))
    ensures r.Ok? <==>
      fileExists(PathJoin(resourcePath, url)) && Lower(Ext(url)) == ".csv" && openFile(PathJoin(resourcePath, url)).None?
    ensures r.Ok? ==> r.value == PathJoin(resourcePath, url)
  {
    var path := PathJoin(resourcePath, url);
    ExtOfJoin(resourcePath, url);
    if !fileExists(path) then Err(HttpError(404, "CSV文件不存在"))
    else if Lower(Ext(path)) != ".csv" then Err(HttpError(400, "文件格式必须是CSV"))
    else match openFile(path)
      case Some(f) => Err(OpenError(f))
      case None => Ok(path)
  }

  /** An illustration of the case-insensitive extension check, on one name:
      "cities.CSV" is accepted like "cities.csv". The general rule is the
      `r.Ok? <==>` clause of `ValidateCityFile`. */
  lemma UpperCaseCsvAccepted(resourcePath: string, fileExists: string -> bool,
                             openFile: string -> Option<OpenFailure>)
    requires fileExists(PathJoin(resourcePath, "cities.CSV")) && openFile(PathJoin(resourcePath, "cities.CSV")).None?
    ensures ValidateCityFile("cities.CSV", resourcePath, fileExists, openFile).Ok?
  {
    UpperCsvExt();
  }

  lemma UpperCsvExt()
    ensures Lower(Ext("cities.CSV")) == ".csv"
  {
    CsvExt();
    LowerCsv();
  }

  lemma CsvExt()
    ensures Ext("cities.CSV") == ".CSV"
  {
    assert "cities.CSV" == "cities" + "." + "CSV";
    ExtOfName("cities", "CSV");
  }

  lemma LowerCsv()
    ensures Lower(".CSV") == ".csv"
  {
    var low := Lower(".CSV");
    assert |low| == 4 && low[0] == '.' && low[1] == 'c' && low[2] == 's' && low[3] == 'v';
  }

  // ---------------------------------------------------------------------
  // city_input

  datatype City = City(cityCode: string, cityName: string)

  /** A row with at least two cells whose name or code is blank, so that
      it strips to the empty string. */
  predicate BadRow(row: seq<string>) {
    |row| >= 2 && (AllSpace(row[0]) || AllSpace(row[1]))
  }

  /** The 1-based number of the first bad row. */
  function FirstBadRow(rows: seq<seq<string>>): (n: Option<nat>)
    ensures n.Some? ==>
      1 <= n.value <= |rows| && BadRow(rows[n.value - 1]) && forall k :: 0 <= k < n.value - 1 ==> !BadRow(rows[k])
    ensures n.None? <==> forall k :: 0 <= k < |rows| ==> !BadRow(rows[k])
  {
    if rows == [] then None
    else if BadRow(rows[0]) then Some(1)
    else match FirstBadRow(rows[1..])
      case Some(n) => Some(n + 1)
      case None => None
  }

  /** The city a row of at least two cells describes: name, then code,
      both stripped. */
  function CityOf(row: seq<string>): (c: City)
    requires |row| >= 2
    ensures c.cityName == [] <==> AllSpace(row[0])
    ensures c.cityCode == [] <==> AllSpace(row[1])
  {
    City(Strip(row[1]), Strip(row[0]))
  }

  /** One city per row of at least two cells, name and code stripped. */
  function Cities(rows: seq<seq<string>>): (cs: seq<City>)
    ensures |cs| <= |rows|
    decreases |rows|
  {
    if rows == [] then []
    else
      var row := rows[|rows| - 1];
      Cities(rows[..|rows| - 1]) + (if |row| >= 2 then [CityOf(row)] else [])
  }

  /** Without bad rows, every imported city has a non-empty stripped name
      and code. */
  lemma {:induction false} CitiesNonEmpty(rows: seq<seq<string>>)
    requires FirstBadRow(rows).None?
    ensures forall c :: c in Cities(rows) ==> c.cityCode != [] && c.cityName != []
    decreases |rows|
  {
    if rows != [] {
      var init := rows[..|rows| - 1];
      assert FirstBadRow(init).None? by {
        assert forall k :: 0 <= k < |init| ==> init[k] == rows[k];
      }
      CitiesNonEmpty(init);
    }
  }

  /** A short row imports nothing but still counts toward the row
      numbers: a bad row after it is reported by its own position. */
  lemma ShortRowCounts(rows: seq<seq<string>>, short: seq<string>, bad: seq<string>)
    requires FirstBadRow(rows).None? && |short| < 2 && BadRow(bad)
    ensures Cities(rows + [short]) == Cities(rows)
    ensures FirstBadRow(rows + [short] + [bad]) == Some(|rows| + 2)
  {
    assert (rows + [short])[..|rows|] == rows;
    ShortRowNumbered(rows, short, bad);
  }

  lemma ShortRowNumbered(rows: seq<seq<string>>, short: seq<string>, bad: seq<string>)
    requires FirstBadRow(rows).None? && |short| < 2 && BadRow(bad)
    ensures FirstBadRow(rows + [short] + [bad]) == Some(|rows| + 2)
  {
    var all := rows + [short] + [bad];
    forall k | 0 <= k < |rows| + 1 ensures !BadRow(all[k]) {
      if k < |rows| { assert all[k] == rows[k]; } else { assert all[k] == short; }
    }
    assert all[|rows| + 1] == bad;
  }

  class CityTable {
    var cities: seq<City>

    constructor(cities: seq<City>)
      ensures this.cities == cities
    {
      this.cities := cities;
    }
  }

  datatype CityImport = CityImport(message: string, url: string)

  const NoData := HttpError(400, "CSV文件中没有数据")

  function RowError(n: nat): HttpError {
    HttpError(400, "第" + IntToString(n) + "行数据错误：城市名或代码不能为空")
  }

  function ImportFailed(e: string): HttpError {
    HttpError(500, "导入城市数据失败: " + e)
  }

  /** `city_input`. The file is validated first; the table is then
      cleared, every row is checked before the single bulk insert, and
      reading errors (`readError`) surface after the rows read. */
  method CityInput(table: CityTable, csvURL: string, resourcePath: string, fileExists: string -> bool,
                   openFile: string -> Option<OpenFailure>, rows: seq<seq<string>>, readError: Option<string>,
                   bulkError: Option<string>)
    returns (r: Result<CityImport, HttpError>)
    modifies table
    ensures ValidateCityFile(csvURL, resourcePath, fileExists, openFile).Err? ==>
      r == Err(ValidateCityFile(csvURL, resourcePath, fileExists, openFile).error) && table.cities == old(table.cities)
    ensures ValidateCityFile(csvURL, resourcePath, fileExists, openFile).Ok? ==>
      (FirstBadRow(rows).Some? ==> r == Err(RowError(FirstBadRow(rows).value)))
      && (FirstBadRow(rows).None? && readError.Some? ==> r == Err(ImportFailed(readError.value)))
      && (FirstBadRow(rows).None? && readError.None? && Cities(rows) == [] ==> r == Err(NoData))
      && (FirstBadRow(rows).None? && readError.None? && Cities(rows) != [] && bulkError.Some? ==>
            r == Err(ImportFailed(bulkError.value)))
      && (r.Ok? <==> FirstBadRow(rows).None? && readError.None? && Cities(rows) != [] && bulkError.None?)
      && (r.Ok? ==> table.cities == Cities(rows)
                    && r.value == CityImport("成功导入 " + IntToString(|Cities(rows)|) + " 个城市数据",
                                             "/resource/" + csvURL))
      && (r.Err? ==> table.cities == [])
  {
    var file := ValidateCityFile(csvURL, resourcePath, fileExists, openFile);
    if file.Err? {
      return Err(file.error);
    }
    table.cities := [];
    var bad, cities := CheckRows(rows);
    if bad.Some? {
      return Err(RowError(bad.value));
    }
    if readError.Some? {
      return Err(ImportFailed(readError.value));
    }
    if cities == [] {
      return Err(NoData);
    }
    if bulkError.Some? {
      return Err(ImportFailed(bulkError.value));
    }
    table.cities := cities;
    r := Ok(CityImport("成功导入 " + IntToString(|cities|) + " 个城市数据", "/resource/" + csvURL));
  }

  /** A bad row preceded only by good ones is the first bad row. */
  lemma FirstBadRowAt(rows: seq<seq<string>>, n: nat)
    requires 1 <= n <= |rows| && BadRow(rows[n - 1])
    requires forall k :: 0 <= k < n - 1 ==> !BadRow(rows[k])
    ensures FirstBadRow(rows) == Some(n)
  {
  }

  /** The row loop of `city_input`: counts rows, skips short ones, stops at
      the first blank name or code and otherwise collects the cities. */
  method CheckRows(rows: seq<seq<string>>) returns (bad: Option<nat>, cities: seq<City>)
    ensures bad == FirstBadRow(rows)
    ensures bad.None? ==> cities == Cities(rows)
  {
    cities := [];
    var rowCount := 0;
    while rowCount < |rows|
      invariant 0 <= rowCount <= |rows|
      invariant forall k :: 0 <= k < rowCount ==> !BadRow(rows[k])
      invariant cities == Cities(rows[..rowCount])
    {
      assert rows[..rowCount + 1][..rowCount] == rows[..rowCount];
      var row := rows[rowCount];
      rowCount := rowCount + 1;
      if |row| >= 2 {
        var city := CityOf(row);
        if city.cityCode == [] || city.cityName == [] {
          FirstBadRowAt(rows, rowCount);
          return Some(rowCount), cities;
        }
        cities := cities + [city];
      }
    }
    assert rows[..|rows|] == rows;
    bad := None;
  }
}
