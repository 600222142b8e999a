/** The built-in port tables selected by `-p medium`, `-p large` and
    `-p xlarge` (main.go, `portMedium`, `portLarge`, `portXlarge`), as a
    closed enumeration mapped to constant tables. */
module Ports {
  import opened Wrappers

  datatype NamedList = Medium | Large | Xlarge

  /** The `-p` values that name a table; every other value is a `proto:port`
      spec. The names are matched exactly, case included. */
  function NamedListOf(spec: string): (n: Option<NamedList>)
    ensures n.Some? ==> ':' !in spec
  {
    if spec == "medium" then Some(Medium)
    else if spec == "large" then Some(Large)
    else if spec == "xlarge" then Some(Xlarge)
    else None
  }

  const MediumPorts: seq<string> := [
    "8000", "8080", "8443"
  ]

  const LargePorts: seq<string> := [
    "81", "591", "2082", "2087", "2095", "2096", "3000", "8000", "8001", "8008", "8080", "8083",
    "8443", "8834", "8888"
  ]

  const XlargePorts: seq<string> := [
    "81", "300", "591", "593", "832", "981", "1010", "1311", "2082", "2087", "2095", "2096",
    "2480", "3000", "3128", "3333", "4243", "4567", "4711", "4712", "4993", "5000", "5104", "5108",
    "5800", "6543", "7000", "7396", "7474", "8000", "8001", "8008", "8014", "8042", "8069", "8080",
    "8081", "8088", "8090", "8091", "8118", "8123", "8172", "8222", "8243", "8280", "8281", "8333",
    "8443", "8500", "8834", "8880", "8888", "8983", "9000", "9043", "9060", "9080", "9090", "9091",
    "9200", "9443", "9800", "9981", "12443", "16080", "18091", "18092", "20720", "28017"
  ]

  /** The table a name selects: 3, 15 and 70 ports. */
  function Table(n: NamedList): (ports: seq<string>)
    ensures |ports| == (match n case Medium => 3 case Large => 15 case Xlarge => 70)
  {
    match n
    case Medium => MediumPorts
    case Large => LargePorts
    case Xlarge => XlargePorts
  }
}
