/** What an avatar slot shows: an image, or a badge of initials. */
module Display {

  datatype Avatar = Picture(src: string) | Badge(initials: string)
}
