/**
 Configuration lookups of include/ConfigMgr.h.

 Both classes of the header are value holders around a `std::map`; their only
 operations are `find`-based lookups that fall back to an empty value, and
 copies of the whole map. They are modelled as datatypes, so a lookup (being a
 function of a value) can never insert anything.
 */
module Config {

  /** One `[section]` of the configuration: key to value. */
  datatype SectionInfo = SectionInfo(data: map<string, string>) {

    /** `SectionInfo::operator[]`: the stored value, or "" when the key is absent. */
    function Get(key: string): (v: string)
      ensures key in data ==> v == data[key]
      ensures key !in data ==> v == ""
      ensures v != "" ==> key in data
    {
      if key in data then data[key] else ""
    }
  }

  /** The section with no keys, as built by `SectionInfo()`. */
  const EmptySection := SectionInfo(map[])

  /**
   `SectionInfo::operator=`: copies the other object's map unless the other
   object is this one. `sameObject` says whether `&other == this`.
   */
  function AssignSection(self: SectionInfo, other: SectionInfo, sameObject: bool): (r: SectionInfo)
    requires sameObject ==> self == other
    ensures r == other
    ensures sameObject ==> r == self
  {
    if sameObject then self else self.(data := other.data)
  }

  /** The whole configuration: section name to section. */
  datatype ConfigMgr = ConfigMgr(sections: map<string, SectionInfo>) {

    /**
     `ConfigMgr::operator[]`: the named section, or an empty section (under
     which every key reads as "") when it is missing. The map is consulted with
     `find` first, so a missing section is not added.
     */
    function Section(name: string): (s: SectionInfo)
      ensures name in sections ==> s == sections[name]
      ensures name !in sections ==> s == EmptySection
      ensures name !in sections ==> forall key :: s.Get(key) == ""
    {
      if name !in sections then SectionInfo(map[]) else sections[name]
    }

    /** The two-level lookup `cfg[section][key]` used by the gateway's constructor. */
    function Lookup(section: string, key: string): (v: string)
      ensures section in sections && key in sections[section].data ==> v == sections[section].data[key]
      ensures v != "" ==> section in sections && key in sections[section].data
    {
      Section(section).Get(key)
    }
  }

  /**
   `ConfigMgr::operator=`: duplicates the other manager's map unless the other
   manager is this one.
   */
  function AssignConfig(self: ConfigMgr, other: ConfigMgr, sameObject: bool): (r: ConfigMgr)
    requires sameObject ==> self == other
    ensures r == other
    ensures sameObject ==> r == self
  {
    if sameObject then self else self.(sections := other.sections)
  }
}
