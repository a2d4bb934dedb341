/**
 The per-variable record the sniff keeps for every name in a scope.
 */
module Scope {
  import opened Wrappers

  /** How a variable came into its scope. */
  datatype ScopeType = Local | Param | Static | Global | Bound | Instance

  /** The visibility keyword of a member-like record (PHP's `T_PUBLIC`,
      `T_PROTECTED` and `T_PRIVATE` tokens). */
  datatype Visibility = Public | Protected | Private

  /** `VariableInfo::$scopeTypeDescriptions`: how each scope type is named
      in warnings. */
  function ScopeTypeDescription(t: ScopeType): (r: string)
    ensures EndsWith(r, Noun(t))
    ensures t != Local ==> |r| > |Noun(t)| + 1 && r[|r| - |Noun(t)| - 1] == ' '
  {
    match t
    case Local => "variable"
    case Param => "function parameter"
    case Static => "static variable"
    case Global => "global variable"
    case Bound => "bound variable"
    case Instance => "instance variable"
  }

  /** The last word of a scope type's description. */
  function Noun(t: ScopeType): string
  {
    if t == Param then "parameter" else "variable"
  }

  /** `s` ends with `suffix`. */
  predicate EndsWith(s: string, suffix: string)
  {
    |suffix| <= |s| && s[|s| - |suffix|..] == suffix
  }

  /** Reads the table backwards: the scope type a description names. */
  function DescribedScopeType(d: string): (r: Option<ScopeType>)
    ensures forall t :: r == Some(t) <==> ScopeTypeDescription(t) == d
  {
    if d == "variable" then Some(Local)
    else if d == "function parameter" then Some(Param)
    else if d == "static variable" then Some(Static)
    else if d == "global variable" then Some(Global)
    else if d == "bound variable" then Some(Bound)
    else if d == "instance variable" then Some(Instance)
    else None
  }

  /** Every scope type has a description, and no two share one. */
  lemma DescriptionsDistinct(s: ScopeType, t: ScopeType)
    ensures DescribedScopeType(ScopeTypeDescription(t)) == Some(t)
    ensures s != t ==> ScopeTypeDescription(s) != ScopeTypeDescription(t)
  {
  }

  /** One variable of one scope. Positions are token indices in the file;
      the sniff fills them in and updates the other fields as it goes. */
  class VariableInfo {
    var name: string
    var scopeType: Option<ScopeType>
    var typeHint: Option<string>
    var passByReference: bool
    var firstDeclared: Option<nat>
    var firstInitialized: Option<nat>
    var firstRead: Option<nat>
    var ignoreUnused: bool
    var visibility: Option<Visibility>

    /** A record that knows only its name. */
    constructor(varName: string)
      ensures name == varName
      ensures scopeType == None && typeHint == None && visibility == None
      ensures !passByReference && !ignoreUnused
      ensures firstDeclared == None && firstInitialized == None && firstRead == None
    {
      name := varName;
      scopeType := None;
      typeHint := None;
      passByReference := false;
      firstDeclared := None;
      firstInitialized := None;
      firstRead := None;
      ignoreUnused := false;
      visibility := None;
    }

    /** Whether the unused-variable warning is suppressed for this record:
        always when the flag is set, and for public and protected members
        whatever the flag says. */
    predicate IsIgnoreUnused(): (r: bool)
      reads this
      ensures ignoreUnused ==> r
      ensures visibility == Some(Public) ==> r
      ensures visibility == Some(Protected) ==> r
      ensures !r <==> !ignoreUnused && (visibility.None? || visibility == Some(Private))
    {
      || ignoreUnused
      || match visibility
         case Some(Public) | Some(Protected) => true
         case _ => false
    }
  }
}
