/**
 * The enumerations of python/rules/predicates.py: comparison modifiers, comparison
 * operator types, options and compound types, with the text each one prints as.
 */
module PredicateTypes {

  datatype Modifier = Direct | All | Any

  datatype ComparisonType =
    | LessThan | LessThanOrEqual | GreaterThan | GreaterThanOrEqual | EqualTo | NotEqualTo
    | Matches | Like | BeginsWith | EndsWith | In | CustomSelector | Contains | Between

  datatype CompoundType = Not | And | Or

  /** The option bits a comparison can carry. */
  const CaseInsensitive: nat := 1
  const DiacriticInsensitive: nat := 2
  const Normalized: nat := 4

  /** A comparison operator: its type, modifier and options, kept as given. */
  datatype ComparisonOperator = ComparisonOperator(opType: ComparisonType, modifier: Modifier, options: int)

  function ModifierText(m: Modifier): (r: string)
    ensures r == "" <==> m == Direct
  {
    match m
    case Direct => ""
    case All => "ALL"
    case Any => "ANY"
  }

  function ComparisonText(t: ComparisonType): (r: string)
    ensures r != ""
  {
    match t
    case LessThan => "<"
    case LessThanOrEqual => "<="
    case GreaterThan => ">"
    case GreaterThanOrEqual => ">="
    case EqualTo => "=="
    case NotEqualTo => "!="
    case Matches => "MATCHES"
    case Like => "LIKE"
    case BeginsWith => "BEGINSWITH"
    case EndsWith => "ENDSWITH"
    case In => "IN"
    case CustomSelector => "SEL"
    case Contains => "CONTAINS"
    case Between => "BETWEEN"
  }

  /** No two operator types print alike. */
  lemma ComparisonTextIsInjective(s: ComparisonType, t: ComparisonType)
    ensures ComparisonText(s) == ComparisonText(t) ==> s == t
  {
  }
}
