/**
 * The documentation index as the generator consumes it: entries, their decoded
 * compound definitions, member sections and member definitions. These are the
 * shapes the loader reads; reading and decoding the XML index belongs to an
 * external library, so a decoded entry arrives here already as a value (or as
 * the error that decoding reported).
 */
module Doxy {
  import opened Wrappers

  /** A `location` element: declaration position and body line range. */
  datatype LocationType = LocationType(
    file: string, line: int, column: int,
    bodyfile: string, bodystart: int, bodyend: int)

  /**
   * A type given as linked text: the cross-reference ids it contains (`Ref`)
   * and its plain text (`Type`).
   */
  datatype LinkedText = LinkedText(refs: seq<string>, text: string)

  /** One parameter of a function member. */
  datatype Param = Param(declname: string, typ: Option<LinkedText>, arrayText: string)

  /** A `memberdef`: an attribute, a property or a function. */
  datatype MemberDef = MemberDef(
    kind: string,
    name: string,
    prot: string,
    location: LocationType,
    typ: Option<LinkedText>,
    argsstring: string,
    definition: string,
    params: seq<Param>,
    readable: bool,
    writable: bool)

  /** A `sectiondef`: a kind tag such as "public-attrib" and its members. */
  datatype SectionDef = SectionDef(kind: string, members: seq<MemberDef>)

  /** A decoded `compounddef`. */
  datatype CompoundDef = CompoundDef(prot: string, location: LocationType, sections: seq<SectionDef>)

  /** The compound kinds of the index that the loader distinguishes. */
  datatype CompoundKind = Struct | Class | Interface | Protocol | File | OtherKind(name: string)

  /** An index entry; `decoded` is what `Decode` yields for it. */
  datatype Entry = Entry(kind: CompoundKind, refid: string, name: string, decoded: Result<CompoundDef>)
}
