/**
 * The resume document every analyzer reads. Every field is present; an absent field of the
 * JavaScript object is represented by its default, the empty string or the empty sequence.
 */
module ResumeSchema {

  datatype Basics = Basics(
    fullName: string, headline: string, email: string, phone: string,
    location: string, linkedin: string, github: string)

  datatype ExperienceEntry = ExperienceEntry(
    id: string, company: string, role: string,
    startDate: string, endDate: string, bullets: seq<string>)

  datatype EducationEntry = EducationEntry(
    id: string, institution: string, degree: string,
    startYear: string, endYear: string, gpa: string, highlights: seq<string>)

  datatype ProjectEntry = ProjectEntry(id: string, name: string, description: string, bullets: seq<string>)

  /** Bookkeeping only; no analyzer reads it. */
  datatype Metadata = Metadata(lastUpdated: string, templateId: string)

  datatype Resume = Resume(
    basics: Basics, summary: string, experience: seq<ExperienceEntry>,
    education: seq<EducationEntry>, skills: seq<string>, projects: seq<ProjectEntry>,
    metadata: Metadata)

  /** The all-empty document: `{ basics: {}, summary: '', experience: [], ... }`. */
  const EmptyResume: Resume :=
    Resume(Basics("", "", "", "", "", "", ""), "", [], [], [], [], Metadata("", ""))
}
